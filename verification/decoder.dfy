/** The decoder state both drivers keep, and the per-frame update both apply:
    the body of `acquireData` after decryption (epoc.py lines 203-232) and of
    the thread's `run` loop (epoc_iohub.py lines 101-131). */
module Decoder {
  import opened Wrappers
  import opened Bits
  import opened Electrodes
  import opened Tables
  import opened Layout

  /** The `quality` dict. Its keys are the fourteen electrode names; a data
      frame whose counter has no electrode in `cqOrder` stores its value under
      the key None, which is how the Python dict behaves. */
  type Quality = map<Option<Electrode>, nat>

  /** What a driver remembers between frames. `signal` is the channel row of
      `sample_buffer`, None until the first data frame has written it. */
  datatype DecoderState = DecoderState(
    counter: nat,
    battery: nat,
    gyroX: int,
    gyroY: int,
    quality: Quality,
    signal: Option<seq<nat>>)

  /** Every electrode starts with quality 0. */
  function InitialQuality(): (q: Quality)
    ensures forall e :: Some(e) in q && q[Some(e)] == 0
    ensures None !in q
  {
    ChannelOrderIsPermutation();
    map e | e in ChannelOrder :: Some(e) := 0
  }

  /** The state the constructor sets up: counter, battery and gyro 0, all
      qualities 0, no samples yet. */
  function Init(): (s: DecoderState)
    ensures Valid(s) && s.battery == 0 && s.signal.None?
    ensures s.quality == InitialQuality() && s.counter == 0
  {
    DecoderState(0, 0, 0, 0, InitialQuality(), None)
  }

  /** What a state can hold once built by `Init` and `Step`: all fourteen
      electrodes present, every value inside its field's range. */
  predicate Valid(s: DecoderState)
  {
    && (forall e :: Some(e) in s.quality)
    && (forall k :: k in s.quality ==> s.quality[k] < 16384)
    && s.counter < 128
    && s.battery <= 100
    && -106 <= s.gyroX <= 21
    && -106 <= s.gyroY <= 149
    && (s.signal.Some? ==>
          |s.signal.value| == 14 && forall i :: 0 <= i < 14 ==> s.signal.value[i] < 16384)
  }

  /** The battery percentage a battery frame reports. The flag bit makes the
      code at least 128, which the closed formula of `battery_levels` covers
      (see BatteryTableLookup for the dict itself). */
  function BatteryOf(f: Bits256): (level: nat)
    requires IsBatteryFrame(f)
    ensures Some(level) == BatteryPercent(LeadByte(f))
    ensures level <= 100
  {
    PercentBounded(LeadByte(f));
    BatteryPercent(LeadByte(f)).value
  }

  /** The lookup `battery_levels[bits[0:8].uint]` on a battery frame cannot
      fail, and finds the level BatteryOf gives. */
  lemma BatteryTableLookup(f: Bits256)
    requires IsBatteryFrame(f)
    ensures LeadByte(f) in BatteryLevels()
    ensures BatteryLevels()[LeadByte(f)] == BatteryOf(f)
  {
    BatteryLevelsAgree(LeadByte(f));
  }

  /** One decrypted frame applied to the state. */
  function Step(s: DecoderState, f: Bits256): (r: DecoderState)
    ensures Valid(s) ==> Valid(r)
  {
    if IsBatteryFrame(f) then
      s.(battery := BatteryOf(f))
    else
      var c := LeadByte(f);
      var r := s.(counter := c,
                  quality := s.quality[Schedule(c) := QualityValue(f)],
                  signal := Some(Channels(f)),
                  gyroX := GyroX(f),
                  gyroY := GyroY(f));
      assert Valid(s) ==> Valid(r) by {
        if Valid(s) {
          StoreKeepsBounds(s.quality, Schedule(c), QualityValue(f), r.quality);
        }
      }
      r
  }

  /** Storing an in-range value keeps every electrode present and every
      value in range. */
  lemma StoreKeepsBounds(q: Quality, k: Option<Electrode>, v: nat, r: Quality)
    requires forall e :: Some(e) in q
    requires forall x :: x in q ==> q[x] < 16384
    requires v < 16384 && r == q[k := v]
    ensures forall e :: Some(e) in r
    ensures forall x :: x in r ==> r[x] < 16384
  {
  }

  /** A battery frame changes the battery level and nothing else. */
  lemma StepBattery(s: DecoderState, f: Bits256)
    requires IsBatteryFrame(f)
    ensures Step(s, f) == s.(battery := Step(s, f).battery)
    ensures LeadByte(f) >= 128
    ensures Some(Step(s, f).battery) == BatteryPercent(LeadByte(f))
  {
  }

  /** A data frame leaves the battery level alone and takes its counter,
      channels and gyro readings from their bit fields. */
  lemma StepData(s: DecoderState, f: Bits256)
    requires !IsBatteryFrame(f)
    ensures Step(s, f).battery == s.battery
    ensures Step(s, f).counter == Uint(f[0..8]) < 128
    ensures Step(s, f).signal.Some?
    ensures |Step(s, f).signal.value| == 14
    ensures forall i :: 0 <= i < 14 ==>
      Step(s, f).signal.value[i] == Uint(f[ChannelStart(i)..ChannelStart(i) + 14]) < 16384
    ensures Step(s, f).gyroX == Uint(f[233..240]) - 106
    ensures Step(s, f).gyroY == Uint(f[240..248]) - 106
  {
  }

  /** The quality update of a data frame follows the schedule: the electrode
      the counter names gets the frame's quality value and the other
      electrodes keep theirs; for a counter with no electrode, every
      electrode keeps its value and the value lands under the None key. */
  lemma StepQuality(s: DecoderState, f: Bits256)
    requires !IsBatteryFrame(f)
    ensures LeadByte(f) < |CqOrder()| && Schedule(LeadByte(f)) == CqOrder()[LeadByte(f)]
    ensures Step(s, f).quality.Keys == s.quality.Keys + {Schedule(LeadByte(f))}
    ensures Step(s, f).quality[Schedule(LeadByte(f))] == Uint(f[107..121])
    ensures forall e :: Some(e) in s.quality && Some(e) != Schedule(LeadByte(f)) ==>
      Step(s, f).quality[Some(e)] == s.quality[Some(e)]
    ensures 16 <= LeadByte(f) < 64 ==>
      forall e :: Some(e) in s.quality ==> Step(s, f).quality[Some(e)] == s.quality[Some(e)]
  {
    var c := LeadByte(f);
    CqOrderIsSchedule();
    UnknownCounters(c);
  }
}
