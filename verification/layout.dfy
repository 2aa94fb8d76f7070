/** The bit layout of a decrypted 32-byte frame (epoc.py lines 204-232 and
    epoc_iohub.py lines 102-131): where the battery flag, the counter, the
    fourteen channel samples, the contact-quality value and the two gyro axes
    sit in the 256 plaintext bits. Bit 0 is the most significant bit of byte 0. */
module Layout {
  import opened Bits

  type Bits256 = s: seq<bool> | |s| == 256 witness seq(256, _ => false)

  /** Each channel sample is a 14-bit big-endian field. */
  const ChannelWidth: nat := 14

  /** First bits of the channel fields, in channel order F3 .. F4, as the source lists them. */
  const ChannelOffsets: seq<nat> := [8, 22, 36, 50, 64, 78, 92, 134, 148, 162, 176, 190, 204, 218]

  /** The contact-quality value occupies bits 107..120. */
  const QualityStart: nat := 107
  const QualityWidth: nat := 14

  /** Gyro X is bits 233..239 (7 bits), gyro Y bits 240..247 (8 bits). */
  const GyroXStart: nat := 233
  const GyroXWidth: nat := 7
  const GyroYStart: nat := 240
  const GyroYWidth: nat := 8

  /** The raw gyro reading of a headset at rest. */
  const GyroBias: int := 106

  /** Channel i starts at 8 + 14i for the first seven channels and at
      134 + 14(i-7) for the other seven; the gap holds the quality field. */
  function ChannelStart(i: nat): nat
    requires i < 14
  {
    if i < 7 then 8 + ChannelWidth * i else 134 + ChannelWidth * (i - 7)
  }

  /** The offset table is the two runs of consecutive 14-bit fields. */
  lemma ChannelOffsetsAreRuns(i: nat)
    requires i < 14
    ensures i < |ChannelOffsets| && ChannelOffsets[i] == ChannelStart(i)
    ensures ChannelStart(i) + ChannelWidth <= 256
  {
    assert i == 0 || i == 1 || i == 2 || i == 3 || i == 4 || i == 5 || i == 6 || i == 7
      || i == 8 || i == 9 || i == 10 || i == 11 || i == 12 || i == 13;
  }

  /** Bit 0 set marks a battery frame; clear, a data frame. */
  predicate IsBatteryFrame(f: Bits256)
  {
    f[0]
  }

  /** `bits[0:8].uint`: the battery code of a battery frame or the counter of a
      data frame. At least 128 exactly when the battery flag is set. */
  function LeadByte(f: Bits256): (r: nat)
    ensures r < 256
    ensures IsBatteryFrame(f) <==> r >= 128
  {
    Pow2Values();
    Uint(f[0..8])
  }

  /** The fourteen channel samples, in channel order. */
  function Channels(f: Bits256): (r: seq<nat>)
    ensures |r| == 14
    ensures forall i :: 0 <= i < 14 ==>
      r[i] == Uint(f[ChannelStart(i)..ChannelStart(i) + ChannelWidth]) && r[i] < 16384
  {
    Pow2Values();
    var r := seq(14, i requires 0 <= i < 14 =>
      assert i < |ChannelOffsets| && ChannelOffsets[i] + ChannelWidth <= 256 by {
        ChannelOffsetsAreRuns(i);
      }
      Uint(f[ChannelOffsets[i]..ChannelOffsets[i] + ChannelWidth]));
    assert forall i :: 0 <= i < 14 ==> ChannelOffsets[i] == ChannelStart(i) by {
      forall i | 0 <= i < 14 ensures ChannelOffsets[i] == ChannelStart(i) {
        ChannelOffsetsAreRuns(i);
      }
    }
    r
  }

  /** `bits[107:121].uint`: the contact-quality value of a data frame. */
  function QualityValue(f: Bits256): (r: nat)
    ensures r < 16384
  {
    Pow2Values();
    Uint(f[QualityStart..QualityStart + QualityWidth])
  }

  /** `bits[233:240].uint - 106`: gyro X, centred on the resting value. */
  function GyroX(f: Bits256): (r: int)
    ensures -106 <= r <= 21
    ensures r == 0 <==> Uint(f[GyroXStart..GyroXStart + GyroXWidth]) == 106
  {
    Pow2Values();
    Uint(f[GyroXStart..GyroXStart + GyroXWidth]) - GyroBias
  }

  /** `bits[240:248].uint - 106`: gyro Y, whose field is one bit wider than gyro X's. */
  function GyroY(f: Bits256): (r: int)
    ensures -106 <= r <= 149
    ensures r == 0 <==> Uint(f[GyroYStart..GyroYStart + GyroYWidth]) == 106
  {
    Pow2Values();
    Uint(f[GyroYStart..GyroYStart + GyroYWidth]) - GyroBias
  }

  /** The fields of a data frame, as raw unsigned values; the reference
      encoder below writes them at their offsets. */
  datatype DataFields = DataFields(counter: nat, channels: seq<nat>, quality: nat, gyroXRaw: nat, gyroYRaw: nat)

  /** Every field fits its width, and the counter leaves the battery flag clear. */
  predicate ValidFields(d: DataFields)
  {
    && d.counter < 128
    && |d.channels| == 14
    && (forall i :: 0 <= i < 14 ==> d.channels[i] < 16384)
    && d.quality < 16384
    && d.gyroXRaw < 128
    && d.gyroYRaw < 256
  }

  /** n clear bits: the frame's unused positions. */
  function Zeros(n: nat): (r: seq<bool>)
    ensures |r| == n
  {
    seq(n, _ => false)
  }

  /** Consecutive 14-bit fields holding the given channel values. */
  function ChannelRun(cs: seq<nat>): (r: seq<bool>)
    requires forall i :: 0 <= i < |cs| ==> cs[i] < 16384
    ensures |r| == 14 * |cs|
  {
    Pow2Values();
    if |cs| == 0 then [] else ToBits(cs[0], 14) + ChannelRun(cs[1..])
  }

  /** Bit j of field i of a channel run is bit j of channel value i. */
  lemma {:induction false} ChannelRunBit(cs: seq<nat>, i: nat, j: nat)
    requires forall i :: 0 <= i < |cs| ==> cs[i] < 16384
    requires i < |cs| && j < 14
    ensures Pow2(14) == 16384
    ensures ChannelRun(cs)[14 * i + j] == ToBits(cs[i], 14)[j]
    decreases i
  {
    Pow2Values();
    var head := ToBits(cs[0], 14);
    var tail := ChannelRun(cs[1..]);
    assert ChannelRun(cs) == head + tail;
    if i > 0 {
      ChannelRunBit(cs[1..], i - 1, j);
      var k := 14 * (i - 1) + j;
      assert 14 * i + j == 14 + k;
      assert (head + tail)[14 + k] == tail[k];
    } else {
      assert (head + tail)[j] == head[j];
    }
  }

  /** A plaintext data frame holding the given fields: counter, channels
      F3..O1, a clear bit, quality, 13 clear bits, channels O2..F4, a clear
      bit, gyro X, gyro Y and 8 clear bits. */
  function Encode(d: DataFields): (f: Bits256)
    requires ValidFields(d)
  {
    Pow2Values();
    var counter := ToBits(d.counter, 8);
    var low := ChannelRun(d.channels[..7]);
    var quality := ToBits(d.quality, 14);
    var high := ChannelRun(d.channels[7..]);
    var gyroX := ToBits(d.gyroXRaw, 7);
    var gyroY := ToBits(d.gyroYRaw, 8);
    assert |counter| == 8 && |low| == 98 && |quality| == 14;
    assert |high| == 98 && |gyroX| == 7 && |gyroY| == 8;
    counter + low + [false] + quality + Zeros(13) + high + [false] + gyroX + gyroY + Zeros(8)
  }

  /** A field whose bits were written from v reads back as v. */
  lemma ReadBack(f: seq<bool>, a: nat, w: nat, v: nat)
    requires a + w <= |f| && v < Pow2(w)
    requires forall j :: 0 <= j < w ==> f[a + j] == ToBits(v, w)[j]
    ensures Uint(f[a..a + w]) == v
  {
    var slice := f[a..a + w];
    var want := ToBits(v, w);
    forall j | 0 <= j < w
      ensures slice[j] == want[j]
    {
      assert slice[j] == f[a + j];
    }
    assert slice == want;
    UintOfToBits(v, w);
  }

  /** Bit j of channel i of an encoded frame is bit j of the channel value. */
  lemma ChannelBit(d: DataFields, i: nat, j: nat)
    requires ValidFields(d) && i < 14 && j < 14
    ensures Pow2(14) == 16384
    ensures Encode(d)[ChannelStart(i) + j] == ToBits(d.channels[i], 14)[j]
  {
    Pow2Values();
    var low := d.channels[..7];
    var high := d.channels[7..];
    if i < 7 {
      ChannelRunBit(low, i, j);
      assert low[i] == d.channels[i];
    } else {
      ChannelRunBit(high, i - 7, j);
      assert high[i - 7] == d.channels[i];
    }
  }

  /** Channel i of an encoded frame reads back as the channel value written. */
  lemma EncodeChannel(d: DataFields, i: nat)
    requires ValidFields(d) && i < 14
    ensures Channels(Encode(d))[i] == d.channels[i]
  {
    Pow2Values();
    forall j | 0 <= j < 14
      ensures Encode(d)[ChannelStart(i) + j] == ToBits(d.channels[i], 14)[j]
    {
      ChannelBit(d, i, j);
    }
    ReadBack(Encode(d), ChannelStart(i), 14, d.channels[i]);
  }

  /** Decoding a frame built from valid fields gives those fields back:
      a data frame with the same counter, channels, quality and gyro values. */
  lemma DecodeEncode(d: DataFields)
    requires ValidFields(d)
    ensures !IsBatteryFrame(Encode(d))
    ensures LeadByte(Encode(d)) == d.counter
    ensures Channels(Encode(d)) == d.channels
    ensures QualityValue(Encode(d)) == d.quality
    ensures GyroX(Encode(d)) == d.gyroXRaw - GyroBias
    ensures GyroY(Encode(d)) == d.gyroYRaw - GyroBias
  {
    Pow2Values();
    var f := Encode(d);
    ReadBack(f, 0, 8, d.counter);
    ReadBack(f, 107, 14, d.quality);
    ReadBack(f, 233, 7, d.gyroXRaw);
    ReadBack(f, 240, 8, d.gyroYRaw);
    forall i | 0 <= i < 14 ensures Channels(f)[i] == d.channels[i] {
      EncodeChannel(d, i);
    }
  }
}
