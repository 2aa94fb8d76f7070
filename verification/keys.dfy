/** Session key derivation: the AES key is built from four bytes of the
    dongle's serial number interleaved with fixed constants, in an order that
    depends on whether the headset is a research or a consumer model
    (epoc.py lines 163-185; the same code is in epoc_iohub.py lines 220-242). */
module Keys {
  import opened Wrappers
  import opened Bits

  datatype Mode = Research | Consumer

  /** Indexing a serial shorter than 16 characters raises in the source. */
  datatype SetupError = InvalidSerial

  /** The constants at the odd key positions 1, 3, ..., 15, in order. */
  function OddBytes(mode: Mode): (c: seq<byte>)
    ensures |c| == 8
  {
    match mode
    case Research => [0x00, 0x54, 0x10, 0x42, 0x00, 0x48, 0x00, 0x50]
    case Consumer => [0x00, 0x48, 0x00, 0x54, 0x10, 0x42, 0x00, 0x50]
  }

  /** `setupEncryption`: the 16-byte key for a serial number, with the key
      written out literally as the source does. Even positions repeat serial
      bytes 15, 14, 13, 12 twice; odd positions hold the mode's constants. */
  function DeriveKey(serial: seq<byte>, mode: Mode): (r: Result<seq<byte>, SetupError>)
    ensures r.Success? <==> |serial| >= 16
    ensures r.Success? ==> |r.value| == 16
    ensures r.Success? ==> forall i :: 0 <= i < 8 ==>
      r.value[2 * i] == serial[15 - i % 4] && r.value[2 * i + 1] == OddBytes(mode)[i]
  {
    if |serial| < 16 then Failure(InvalidSerial)
    else
      match mode
      case Research =>
        Success([serial[15], 0x00, serial[14], 0x54, serial[13], 0x10, serial[12], 0x42,
                 serial[15], 0x00, serial[14], 0x48, serial[13], 0x00, serial[12], 0x50])
      case Consumer =>
        Success([serial[15], 0x00, serial[14], 0x48, serial[13], 0x00, serial[12], 0x54,
                 serial[15], 0x10, serial[14], 0x42, serial[13], 0x00, serial[12], 0x50])
  }

  /** The key depends only on serial bytes 12-15 and the mode. */
  lemma KeyDependsOnLastFour(s: seq<byte>, t: seq<byte>, mode: Mode)
    requires |s| >= 16 && |t| >= 16 && s[12..16] == t[12..16]
    ensures DeriveKey(s, mode) == DeriveKey(t, mode)
  {
    assert s[12..16][0] == t[12..16][0] && s[12..16][1] == t[12..16][1];
    assert s[12..16][2] == t[12..16][2] && s[12..16][3] == t[12..16][3];
  }

  /** For every serial the research and consumer keys differ (at position 3). */
  lemma ModesDiffer(serial: seq<byte>)
    requires |serial| >= 16
    ensures DeriveKey(serial, Research).value[3] == 0x54
    ensures DeriveKey(serial, Consumer).value[3] == 0x48
    ensures DeriveKey(serial, Research) != DeriveKey(serial, Consumer)
  {
  }

  /** The character codes of a Python 2 byte string. */
  function Ord(s: string): (r: seq<byte>)
    requires forall i :: 0 <= i < |s| ==> s[i] as int < 256
    ensures |r| == |s|
    ensures forall i :: 0 <= i < |s| ==> r[i] == s[i] as int
  {
    seq(|s|, i requires 0 <= i < |s| => s[i] as int)
  }

  /** The serial "123456789ABCDEF0" in research mode. */
  lemma ResearchKeyExample()
    ensures DeriveKey(Ord("123456789ABCDEF0"), Research)
      == Success([0x30, 0x00, 0x46, 0x54, 0x45, 0x10, 0x44, 0x42,
                  0x30, 0x00, 0x46, 0x48, 0x45, 0x00, 0x44, 0x50])
  {
    var s := Ord("123456789ABCDEF0");
    assert s[12] == 0x44 && s[13] == 0x45 && s[14] == 0x46 && s[15] == 0x30;
  }
}
