/** The synchronous driver `EmotivEPOC` (epoc.py): a session holding the
    serial number, the key once `setupEncryption` has run, and the decoder
    state that `acquireData` advances one read at a time. */
module Epoc {
  import opened Wrappers
  import opened Bits
  import opened Electrodes
  import opened Tables
  import opened Keys
  import opened Layout
  import opened Transport
  import opened Decoder

  datatype Session = Session(serial: seq<byte>, key: Option<seq<byte>>, decoder: DecoderState)

  /** The constructor with the serial number `enumerate` would find. */
  function New(serial: seq<byte>): (e: Session)
    ensures e.key.None? && Valid(e.decoder)
    ensures forall el :: e.decoder.quality[Some(el)] == 0
  {
    Session(serial, None, Init())
  }

  /** `setupEncryption(research)`: derive and remember the key; a serial
      too short to index fails. */
  function SetupEncryption(e: Session, research: bool): (r: Result<Session, SetupError>)
    ensures r.Success? <==> |e.serial| >= 16
    ensures r.Success? ==> r.value.serial == e.serial && r.value.decoder == e.decoder
    ensures r.Success? ==> r.value.key.Some? && |r.value.key.value| == 16
    ensures r.Success? ==> r.value.key.value[3] == (if research then 0x54 else 0x48)
    ensures r.Success? ==> r.value.key == Some(DeriveKey(e.serial, if research then Research else Consumer).value)
  {
    var mode := if research then Research else Consumer;
    var derived := DeriveKey(e.serial, mode);
    if derived.Failure? then Failure(derived.error)
    else
      assert derived.value[2 * 1 + 1] == OddBytes(mode)[1];
      Success(e.(key := Some(derived.value)))
  }

  /** `acquireData`: read, decrypt and decode one report. A read error is
      reported and changes nothing; a battery frame returns no samples. */
  function AcquireData(decrypt: Cipher, e: Session, read: Read): (r: (Session, Option<seq<nat>>))
    requires e.key.Some?
    ensures r.0.serial == e.serial && r.0.key == e.key
    ensures Valid(e.decoder) ==> Valid(r.0.decoder)
  {
    match read
    case UsbError(_) => (e, None)
    case Frame(raw) =>
      var f := Plaintext(decrypt, e.key.value, raw);
      var d := Step(e.decoder, f);
      (e.(decoder := d), if IsBatteryFrame(f) then None else d.signal)
  }

  /** `getSignal`: the samples `acquireData` returns. */
  function GetSignal(decrypt: Cipher, e: Session, read: Read): (r: (Session, Option<seq<nat>>))
    requires e.key.Some?
    ensures r.1.Some? ==> |r.1.value| == 14 && r.1 == r.0.decoder.signal
  {
    AcquireData(decrypt, e, read)
  }

  /** `getGyroX`: read one report, then return the stored X value. */
  function GetGyroX(decrypt: Cipher, e: Session, read: Read): (r: (Session, int))
    requires e.key.Some?
    ensures Valid(e.decoder) ==> -106 <= r.1 <= 21
  {
    var (e', _) := AcquireData(decrypt, e, read);
    (e', e'.decoder.gyroX)
  }

  /** `getGyroY`: read one report, then return the stored Y value. */
  function GetGyroY(decrypt: Cipher, e: Session, read: Read): (r: (Session, int))
    requires e.key.Some?
    ensures Valid(e.decoder) ==> -106 <= r.1 <= 149
  {
    var (e', _) := AcquireData(decrypt, e, read);
    (e', e'.decoder.gyroY)
  }

  /** `getContactQuality(name)`: the stored value for an electrode name, None
      (after a message) for a name that is not one of the fourteen. */
  function GetContactQuality(e: Session, name: string): (r: Option<nat>)
    requires Valid(e.decoder)
    ensures r.Some? <==> exists el :: Name(el) == name
    ensures r.Some? ==> r.value < 16384
  {
    match Parse(name)
    case None => None
    case Some(el) => Some(e.decoder.quality[Some(el)])
  }

  /** `getBatteryLevel`: the stored level, without reading. */
  function GetBatteryLevel(e: Session): (r: nat)
    requires Valid(e.decoder)
    ensures r <= 100
  {
    e.decoder.battery
  }

  /** A read error leaves the session as it was and yields no samples; a
      frame yields samples exactly when it is a data frame, and then they
      are the fourteen channel fields of the plaintext. */
  lemma AcquireDataResult(decrypt: Cipher, e: Session, read: Read)
    requires e.key.Some?
    ensures read.UsbError? ==> AcquireData(decrypt, e, read) == (e, None)
    ensures read.Frame? ==>
      var f := Plaintext(decrypt, e.key.value, read.raw);
      && (AcquireData(decrypt, e, read).1.Some? <==> !IsBatteryFrame(f))
      && (!IsBatteryFrame(f) ==> AcquireData(decrypt, e, read).1 == Some(Channels(f)))
      && AcquireData(decrypt, e, read).0.decoder == Step(e.decoder, f)
  {
  }

  /** The gyro getters return the values of the report they read when it is
      a data frame, and the previous values otherwise. */
  lemma GyroLatest(decrypt: Cipher, e: Session, read: Read)
    requires e.key.Some?
    ensures read.Frame? && !IsBatteryFrame(Plaintext(decrypt, e.key.value, read.raw)) ==>
      var f := Plaintext(decrypt, e.key.value, read.raw);
      GetGyroX(decrypt, e, read).1 == Uint(f[233..240]) - 106 &&
      GetGyroY(decrypt, e, read).1 == Uint(f[240..248]) - 106
    ensures read.UsbError? || IsBatteryFrame(Plaintext(decrypt, e.key.value, read.raw)) ==>
      GetGyroX(decrypt, e, read).1 == e.decoder.gyroX &&
      GetGyroY(decrypt, e, read).1 == e.decoder.gyroY
  {
  }

  /** Contact quality is the value stored for the named electrode. */
  lemma ContactQualityByName(e: Session, el: Electrode)
    requires Valid(e.decoder)
    ensures GetContactQuality(e, Name(el)) == Some(e.decoder.quality[Some(el)])
  {
    ParseName(el);
  }

  /** The battery level after a battery frame is the table's percentage for
      its lead byte; data frames and errors leave it unchanged. */
  lemma BatteryLatest(decrypt: Cipher, e: Session, read: Read)
    requires e.key.Some? && Valid(e.decoder)
    ensures read.Frame? && IsBatteryFrame(Plaintext(decrypt, e.key.value, read.raw)) ==>
      Some(GetBatteryLevel(AcquireData(decrypt, e, read).0)) ==
        BatteryPercent(LeadByte(Plaintext(decrypt, e.key.value, read.raw)))
    ensures read.UsbError? || !IsBatteryFrame(Plaintext(decrypt, e.key.value, read.raw)) ==>
      GetBatteryLevel(AcquireData(decrypt, e, read).0) == GetBatteryLevel(e)
  {
    if read.Frame? {
      var f := Plaintext(decrypt, e.key.value, read.raw);
      if IsBatteryFrame(f) {
        StepBattery(e.decoder, f);
      }
    }
  }

  /** A fresh session fed one data frame with counter 0, F3 sample 100,
      quality 500 and a centred X gyro: the samples come back with F3 = 100,
      F3's contact quality reads 500 and FC5's is still 0. */
  lemma FirstFrameScenario(decrypt: Cipher, serial: seq<byte>, raw: Block, d: DataFields)
    requires |serial| >= 16
    requires ValidFields(d) && d.counter == 0 && d.channels[0] == 100
    requires d.quality == 500 && d.gyroXRaw == 106
    requires
      var e := SetupEncryption(New(serial), true).value;
      Plaintext(decrypt, e.key.value, raw) == Encode(d)
    ensures
      var e := SetupEncryption(New(serial), true).value;
      var r := AcquireData(decrypt, e, Frame(raw));
      && r.1.Some? && r.1.value[0] == 100
      && GetContactQuality(r.0, "F3") == Some(500)
      && GetContactQuality(r.0, "FC5") == Some(0)
      && GetGyroX(decrypt, e, Frame(raw)).1 == 0
  {
    var e := SetupEncryption(New(serial), true).value;
    var f := Plaintext(decrypt, e.key.value, raw);
    DecodeEncode(d);
    assert !IsBatteryFrame(f) && LeadByte(f) == 0;
    StepQuality(e.decoder, f);
    assert Schedule(0) == Some(F3);
    var e' := AcquireData(decrypt, e, Frame(raw)).0;
    assert e'.decoder == Step(e.decoder, f);
    assert e'.decoder.quality[Some(F3)] == 500;
    assert e'.decoder.quality[Some(FC5)] == 0;
    ContactQualityByName(e', F3);
    ContactQualityByName(e', FC5);
  }
}
