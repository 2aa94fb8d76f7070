/** The threaded driver (epoc_iohub.py). `EmotivDataAcquisitionThread.run`
    decodes reports one after another and puts one message per data frame on
    a queue; `EmotivDevice` derives the key at construction and its getters
    take at most one message off the queue without blocking. The thread is
    modelled as a fold over the reads it performs, the queue as a sequence
    with its head at index 0. */
module IoHub {
  import opened Wrappers
  import opened Bits
  import opened Electrodes
  import opened Keys
  import opened Tables
  import opened Layout
  import opened Transport
  import opened Decoder
  import Epoc

  /** The four-entry dict the thread puts on the queue, as a value. */
  datatype Message = Message(signal: seq<nat>, gyro: (int, int), battery: nat, quality: Quality)

  /** Why the thread ended: `EPOCTurnedOffError` or `EPOCUSBError`. */
  datatype Stop = TurnedOff | UsbFailure(errno: int)

  datatype Thread = Thread(decoder: DecoderState, queue: seq<Message>, stopped: Option<Stop>)

  /** The exception a failed read raises: errno 110 (a timeout) means the
      headset is off, anything else is a USB error carrying its errno. */
  function StopOf(errno: int): (s: Stop)
    ensures s == TurnedOff <==> errno == 110
    ensures s.UsbFailure? ==> s.errno == errno
  {
    if errno == 110 then TurnedOff else UsbFailure(errno)
  }

  /** The thread as constructed, sharing the decoder's initial values. */
  function ThreadInit(): (t: Thread)
    ensures t.queue == [] && t.stopped.None? && Valid(t.decoder)
    ensures t.decoder.battery == 0
  {
    Thread(Init(), [], None)
  }

  /** The message for the state a data frame has just produced. */
  function Publish(d: DecoderState): (m: Message)
    requires d.signal.Some?
    ensures Valid(d) ==> |m.signal| == 14 && forall i :: 0 <= i < 14 ==> m.signal[i] < 16384
    ensures Valid(d) ==> m.battery <= 100 && -106 <= m.gyro.0 <= 21 && -106 <= m.gyro.1 <= 149
    ensures Valid(d) ==> forall e :: Some(e) in m.quality
  {
    Message(d.signal.value, (d.gyroX, d.gyroY), d.battery, d.quality)
  }

  /** One iteration of the `run` loop. */
  function ThreadStep(decrypt: Cipher, key: seq<byte>, t: Thread, read: Read): (r: Thread)
    requires t.stopped.None?
    ensures t.queue <= r.queue && |r.queue| <= |t.queue| + 1
  {
    match read
    case UsbError(n) => t.(stopped := Some(StopOf(n)))
    case Frame(raw) =>
      var f := Plaintext(decrypt, key, raw);
      var d := Step(t.decoder, f);
      if IsBatteryFrame(f) then t.(decoder := d)
      else t.(decoder := d, queue := t.queue + [Publish(d)])
  }

  /** The `run` loop over a sequence of reads; once it has stopped it reads
      nothing more. */
  function Run(decrypt: Cipher, key: seq<byte>, t: Thread, ins: seq<Read>): (r: Thread)
    ensures t.queue <= r.queue
    ensures t.stopped.Some? ==> r == t
    ensures Valid(t.decoder) ==> Valid(r.decoder)
    decreases |ins|
  {
    if t.stopped.Some? || |ins| == 0 then t
    else Run(decrypt, key, ThreadStep(decrypt, key, t, ins[0]), ins[1..])
  }

  /** Reference definitions, independent of the loop. The plaintexts of the
      data frames read before the first error, in order. */
  function DataFrames(decrypt: Cipher, key: seq<byte>, ins: seq<Read>): seq<Bits256>
    decreases |ins|
  {
    if |ins| == 0 then []
    else match ins[0]
      case UsbError(_) => []
      case Frame(raw) =>
        var f := Plaintext(decrypt, key, raw);
        (if IsBatteryFrame(f) then [] else [f]) + DataFrames(decrypt, key, ins[1..])
  }

  /** The errno of the first failed read, if any. */
  function FirstError(ins: seq<Read>): Option<int>
    decreases |ins|
  {
    if |ins| == 0 then None
    else match ins[0]
      case UsbError(n) => Some(n)
      case Frame(_) => FirstError(ins[1..])
  }

  /** The level of the last battery frame read before the first error, or
      `b` when there is none. */
  function LastBattery(decrypt: Cipher, key: seq<byte>, b: nat, ins: seq<Read>): nat
    decreases |ins|
  {
    if |ins| == 0 then b
    else match ins[0]
      case UsbError(_) => b
      case Frame(raw) =>
        var f := Plaintext(decrypt, key, raw);
        LastBattery(decrypt, key, if IsBatteryFrame(f) then BatteryOf(f) else b, ins[1..])
  }

  /** A message carries a frame's channel samples and gyro readings. */
  predicate Carries(m: Message, f: Bits256)
  {
    m.signal == Channels(f) && m.gyro == (GyroX(f), GyroY(f))
  }

  /** Message by message, `q` carries the frames `ds`. */
  predicate CarriesAll(q: seq<Message>, ds: seq<Bits256>)
    decreases |ds|
  {
    |q| == |ds| && (|ds| > 0 ==> Carries(q[0], ds[0]) && CarriesAll(q[1..], ds[1..]))
  }

  lemma {:induction false} CarriesAllIndex(q: seq<Message>, ds: seq<Bits256>)
    requires CarriesAll(q, ds)
    ensures |q| == |ds|
    ensures forall k :: 0 <= k < |ds| ==> Carries(q[k], ds[k])
    decreases |ds|
  {
    if |ds| > 0 {
      CarriesAllIndex(q[1..], ds[1..]);
      forall k | 1 <= k < |ds|
        ensures Carries(q[k], ds[k])
      {
        assert q[k] == q[1..][k - 1] && ds[k] == ds[1..][k - 1];
      }
    }
  }

  /** The messages the loop adds carry the data frames it reads, in order. */
  lemma {:induction false} RunCarries(decrypt: Cipher, key: seq<byte>, t: Thread, ins: seq<Read>)
    requires t.stopped.None?
    ensures |t.queue| <= |Run(decrypt, key, t, ins).queue|
    ensures CarriesAll(Run(decrypt, key, t, ins).queue[|t.queue|..], DataFrames(decrypt, key, ins))
    decreases |ins|
  {
    if |ins| == 0 || ins[0].UsbError? {
      RunCarriesStop(decrypt, key, t, ins);
    } else if IsBatteryFrame(Plaintext(decrypt, key, ins[0].raw)) {
      RunCarries(decrypt, key, ThreadStep(decrypt, key, t, ins[0]), ins[1..]);
      RunCarriesBattery(decrypt, key, t, ins);
    } else {
      RunCarries(decrypt, key, ThreadStep(decrypt, key, t, ins[0]), ins[1..]);
      RunCarriesData(decrypt, key, t, ins);
    }
  }

  /** The base case of RunCarries: no read left, or a failed one. */
  lemma RunCarriesStop(decrypt: Cipher, key: seq<byte>, t: Thread, ins: seq<Read>)
    requires t.stopped.None? && (|ins| == 0 || ins[0].UsbError?)
    ensures CarriesAll(Run(decrypt, key, t, ins).queue[|t.queue|..], DataFrames(decrypt, key, ins))
  {
    assert Run(decrypt, key, t, ins).queue == t.queue;
    assert DataFrames(decrypt, key, ins) == [];
  }

  /** The inductive step of RunCarries for a battery frame, which adds nothing. */
  lemma RunCarriesBattery(decrypt: Cipher, key: seq<byte>, t: Thread, ins: seq<Read>)
    requires t.stopped.None? && |ins| > 0 && ins[0].Frame?
    requires IsBatteryFrame(Plaintext(decrypt, key, ins[0].raw))
    requires
      var t1 := ThreadStep(decrypt, key, t, ins[0]);
      CarriesAll(Run(decrypt, key, t1, ins[1..]).queue[|t1.queue|..], DataFrames(decrypt, key, ins[1..]))
    ensures CarriesAll(Run(decrypt, key, t, ins).queue[|t.queue|..], DataFrames(decrypt, key, ins))
  {
    var t1 := ThreadStep(decrypt, key, t, ins[0]);
    assert t1.queue == t.queue;
    assert Run(decrypt, key, t, ins) == Run(decrypt, key, t1, ins[1..]);
    assert DataFrames(decrypt, key, ins) == DataFrames(decrypt, key, ins[1..]);
  }

  /** The inductive step of RunCarries for a data frame, which adds its message first. */
  lemma RunCarriesData(decrypt: Cipher, key: seq<byte>, t: Thread, ins: seq<Read>)
    requires t.stopped.None? && |ins| > 0 && ins[0].Frame?
    requires !IsBatteryFrame(Plaintext(decrypt, key, ins[0].raw))
    requires
      var t1 := ThreadStep(decrypt, key, t, ins[0]);
      CarriesAll(Run(decrypt, key, t1, ins[1..]).queue[|t1.queue|..], DataFrames(decrypt, key, ins[1..]))
    ensures CarriesAll(Run(decrypt, key, t, ins).queue[|t.queue|..], DataFrames(decrypt, key, ins))
  {
    var f := Plaintext(decrypt, key, ins[0].raw);
    var t1 := ThreadStep(decrypt, key, t, ins[0]);
    var r := Run(decrypt, key, t1, ins[1..]);
    RunCons(decrypt, key, t, ins);
    DataFramesCons(decrypt, key, ins);
    StepPublishesFrame(decrypt, key, t, ins[0].raw);
    var added := r.queue[|t.queue|..];
    assert added[0] == t1.queue[|t.queue|];
    assert added[1..] == r.queue[|t1.queue|..];
  }

  /** The loop's first iteration, for a thread that is still running. */
  lemma RunCons(decrypt: Cipher, key: seq<byte>, t: Thread, ins: seq<Read>)
    requires t.stopped.None? && |ins| > 0
    ensures Run(decrypt, key, t, ins) == Run(decrypt, key, ThreadStep(decrypt, key, t, ins[0]), ins[1..])
  {
  }

  /** A leading data frame is the first of the data frames. */
  lemma DataFramesCons(decrypt: Cipher, key: seq<byte>, ins: seq<Read>)
    requires |ins| > 0 && ins[0].Frame?
    requires !IsBatteryFrame(Plaintext(decrypt, key, ins[0].raw))
    ensures DataFrames(decrypt, key, ins) == [Plaintext(decrypt, key, ins[0].raw)] + DataFrames(decrypt, key, ins[1..])
  {
  }

  /** A data frame appends one message, and it carries that frame. */
  lemma StepPublishesFrame(decrypt: Cipher, key: seq<byte>, t: Thread, raw: Block)
    requires t.stopped.None?
    requires !IsBatteryFrame(Plaintext(decrypt, key, raw))
    ensures
      var t1 := ThreadStep(decrypt, key, t, Frame(raw));
      |t1.queue| == |t.queue| + 1 && Carries(t1.queue[|t.queue|], Plaintext(decrypt, key, raw))
  {
    StepData(t.decoder, Plaintext(decrypt, key, raw));
  }

  /** Each data frame read before the first error puts exactly one message on
      the queue, in frame order, carrying that frame's channels and gyro
      values; battery frames put nothing. */
  lemma RunQueue(decrypt: Cipher, key: seq<byte>, t: Thread, ins: seq<Read>)
    requires t.stopped.None?
    ensures |Run(decrypt, key, t, ins).queue| == |t.queue| + |DataFrames(decrypt, key, ins)|
    ensures forall k :: 0 <= k < |DataFrames(decrypt, key, ins)| ==>
      Carries(Run(decrypt, key, t, ins).queue[|t.queue| + k], DataFrames(decrypt, key, ins)[k])
  {
    RunCarries(decrypt, key, t, ins);
    var r := Run(decrypt, key, t, ins);
    CarriesAllIndex(r.queue[|t.queue|..], DataFrames(decrypt, key, ins));
  }

  /** The thread stops exactly when a read fails, with the exception that
      read's errno selects. */
  lemma {:induction false} RunStops(decrypt: Cipher, key: seq<byte>, t: Thread, ins: seq<Read>)
    requires t.stopped.None?
    ensures Run(decrypt, key, t, ins).stopped.Some? <==> FirstError(ins).Some?
    ensures FirstError(ins).Some? ==>
      Run(decrypt, key, t, ins).stopped == Some(StopOf(FirstError(ins).value))
    decreases |ins|
  {
    if |ins| > 0 && ins[0].Frame? {
      RunStops(decrypt, key, ThreadStep(decrypt, key, t, ins[0]), ins[1..]);
    }
  }

  /** The battery level the thread holds is that of the last battery frame
      read before the first error, or the level it started with. */
  lemma {:induction false} RunBattery(decrypt: Cipher, key: seq<byte>, t: Thread, ins: seq<Read>)
    requires t.stopped.None?
    ensures Run(decrypt, key, t, ins).decoder.battery == LastBattery(decrypt, key, t.decoder.battery, ins)
    decreases |ins|
  {
    if |ins| > 0 && ins[0].Frame? {
      var f := Plaintext(decrypt, key, ins[0].raw);
      var t1 := ThreadStep(decrypt, key, t, ins[0]);
      if IsBatteryFrame(f) {
        StepBattery(t.decoder, f);
      } else {
        StepData(t.decoder, f);
      }
      RunBattery(decrypt, key, t1, ins[1..]);
    }
  }

  /** Running over `a` and then over `b` is running over `a + b`. */
  lemma {:induction false} RunAppend(decrypt: Cipher, key: seq<byte>, t: Thread, a: seq<Read>, b: seq<Read>)
    ensures Run(decrypt, key, t, a + b) == Run(decrypt, key, Run(decrypt, key, t, a), b)
    decreases |a|
  {
    if t.stopped.Some? {
    } else if |a| == 0 {
      assert a + b == b;
    } else {
      var t1 := ThreadStep(decrypt, key, t, a[0]);
      assert (a + b)[0] == a[0] && (a + b)[1..] == a[1..] + b;
      calc {
        Run(decrypt, key, t, a + b);
        Run(decrypt, key, t1, a[1..] + b);
        { RunAppend(decrypt, key, t1, a[1..], b); }
        Run(decrypt, key, Run(decrypt, key, t1, a[1..]), b);
        Run(decrypt, key, Run(decrypt, key, t, a), b);
      }
    }
  }

  /** The battery value in the message a data frame produces is the level of
      the most recent earlier battery frame; for a fresh thread that has seen
      none, it is 0. */
  lemma MessageBattery(decrypt: Cipher, key: seq<byte>, t: Thread, pre: seq<Read>, raw: Block)
    requires t.stopped.None? && FirstError(pre).None?
    requires !IsBatteryFrame(Plaintext(decrypt, key, raw))
    ensures
      var r := Run(decrypt, key, t, pre + [Frame(raw)]);
      |r.queue| > 0 && r.queue[|r.queue| - 1].battery == LastBattery(decrypt, key, t.decoder.battery, pre)
  {
    var mid := Run(decrypt, key, t, pre);
    RunAppend(decrypt, key, t, pre, [Frame(raw)]);
    RunStops(decrypt, key, t, pre);
    RunBattery(decrypt, key, t, pre);
    RunOne(decrypt, key, mid, Frame(raw));
    StepPublishes(decrypt, key, mid, raw);
  }

  /** A data frame's message carries the battery level the thread held. */
  lemma StepPublishes(decrypt: Cipher, key: seq<byte>, t: Thread, raw: Block)
    requires t.stopped.None?
    requires !IsBatteryFrame(Plaintext(decrypt, key, raw))
    ensures
      var r := ThreadStep(decrypt, key, t, Frame(raw));
      |r.queue| > 0 && r.queue[|r.queue| - 1].battery == t.decoder.battery
  {
    StepData(t.decoder, Plaintext(decrypt, key, raw));
  }

  /** Where the queue starts does not affect what the thread does: it only
      appends. This is what lets the consumer take messages off the front
      at any time while the thread runs. */
  lemma {:induction false} RunAppendsOnly(decrypt: Cipher, key: seq<byte>, t: Thread, q: seq<Message>, ins: seq<Read>)
    ensures
      var r := Run(decrypt, key, t, ins);
      Run(decrypt, key, t.(queue := q), ins) == r.(queue := q + r.queue[|t.queue|..])
    decreases |ins|
  {
    if t.stopped.Some? || |ins| == 0 {
      assert t.queue[|t.queue|..] == [];
    } else {
      var t1 := ThreadStep(decrypt, key, t, ins[0]);
      RunAppendsOnly(decrypt, key, t1, q + t1.queue[|t.queue|..], ins[1..]);
      RunAppendsOnlyStep(decrypt, key, t, q, ins);
    }
  }

  /** The inductive step of RunAppendsOnly. */
  lemma RunAppendsOnlyStep(decrypt: Cipher, key: seq<byte>, t: Thread, q: seq<Message>, ins: seq<Read>)
    requires t.stopped.None? && |ins| > 0
    requires
      var t1 := ThreadStep(decrypt, key, t, ins[0]);
      var r := Run(decrypt, key, t1, ins[1..]);
      Run(decrypt, key, t1.(queue := q + t1.queue[|t.queue|..]), ins[1..]) ==
        r.(queue := q + t1.queue[|t.queue|..] + r.queue[|t1.queue|..])
    ensures
      var r := Run(decrypt, key, t, ins);
      Run(decrypt, key, t.(queue := q), ins) == r.(queue := q + r.queue[|t.queue|..])
  {
    var t1 := ThreadStep(decrypt, key, t, ins[0]);
    StepAppendsOnly(decrypt, key, t, q, ins[0]);
    SuffixSplit(q, t.queue, t1.queue, Run(decrypt, key, t1, ins[1..]).queue);
  }

  /** Splitting the part of a sequence beyond a prefix at a longer prefix. */
  lemma SuffixSplit(q: seq<Message>, a: seq<Message>, b: seq<Message>, c: seq<Message>)
    requires a <= b <= c
    ensures q + b[|a|..] + c[|b|..] == q + c[|a|..]
  {
    assert b == c[..|b|];
    assert c[|a|..] == b[|a|..] + c[|b|..];
  }

  /** One iteration only appends to the queue it finds. */
  lemma StepAppendsOnly(decrypt: Cipher, key: seq<byte>, t: Thread, q: seq<Message>, read: Read)
    requires t.stopped.None?
    ensures
      var t1 := ThreadStep(decrypt, key, t, read);
      ThreadStep(decrypt, key, t.(queue := q), read) == t1.(queue := q + t1.queue[|t.queue|..])
  {
    match read
    case UsbError(_) =>
    case Frame(raw) =>
      if IsBatteryFrame(Plaintext(decrypt, key, raw)) {
        StepAppendsNothing(decrypt, key, t, q, raw);
      } else {
        StepAppendsMessage(decrypt, key, t, q, raw);
      }
  }

  /** StepAppendsOnly for a battery frame, which leaves any queue alone. */
  lemma StepAppendsNothing(decrypt: Cipher, key: seq<byte>, t: Thread, q: seq<Message>, raw: Block)
    requires t.stopped.None?
    requires IsBatteryFrame(Plaintext(decrypt, key, raw))
    ensures
      var t1 := ThreadStep(decrypt, key, t, Frame(raw));
      ThreadStep(decrypt, key, t.(queue := q), Frame(raw)) == t1.(queue := q + t1.queue[|t.queue|..])
  {
    var t1 := ThreadStep(decrypt, key, t, Frame(raw));
    assert t1.queue == t.queue;
    assert t1.queue[|t.queue|..] == [];
  }

  /** StepAppendsOnly for a data frame, whose one message goes after any queue. */
  lemma StepAppendsMessage(decrypt: Cipher, key: seq<byte>, t: Thread, q: seq<Message>, raw: Block)
    requires t.stopped.None?
    requires !IsBatteryFrame(Plaintext(decrypt, key, raw))
    ensures
      var t1 := ThreadStep(decrypt, key, t, Frame(raw));
      ThreadStep(decrypt, key, t.(queue := q), Frame(raw)) == t1.(queue := q + t1.queue[|t.queue|..])
  {
    var d := Step(t.decoder, Plaintext(decrypt, key, raw));
    var t1 := ThreadStep(decrypt, key, t, Frame(raw));
    assert t1.queue == t.queue + [Publish(d)];
    assert t1.queue[|t.queue|..] == [Publish(d)];
  }

  /** `EmotivDevice`: its key, and the thread whose queue it reads. */
  datatype Device = Device(serial: seq<byte>, key: seq<byte>, thread: Thread)

  /** The constructor: `_setupEncryption()` with its default, research mode. */
  function NewDevice(serial: seq<byte>): (r: Result<Device, SetupError>)
    ensures r.Success? <==> |serial| >= 16
    ensures r.Success? ==> Success(r.value.key) == DeriveKey(serial, Research)
    ensures r.Success? ==> r.value.thread == ThreadInit()
  {
    match DeriveKey(serial, Research)
    case Failure(err) => Failure(err)
    case Success(k) => Success(Device(serial, k, ThreadInit()))
  }

  /** The acquisition thread performing the reads `ins`. */
  function Acquire(decrypt: Cipher, dev: Device, ins: seq<Read>): (r: Device)
    ensures r.serial == dev.serial && r.key == dev.key
    ensures dev.thread.queue <= r.thread.queue
  {
    dev.(thread := Run(decrypt, dev.key, dev.thread, ins))
  }

  /** `Queue.get(block=False)`: the head message and the rest, or None and
      the queue untouched when it is empty. */
  function Poll(q: seq<Message>): (r: (Option<Message>, seq<Message>))
    ensures r.0.None? <==> q == []
    ensures r.0.None? ==> r.1 == q
    ensures r.0.Some? ==> [r.0.value] + r.1 == q
  {
    if q == [] then (None, q) else (Some(q[0]), q[1..])
  }

  /** Take one message off the device's queue; nothing else changes. */
  function Take(dev: Device): (r: (Option<Message>, Device))
    ensures r.0.None? <==> dev.thread.queue == []
    ensures r.0.None? ==> r.1 == dev
    ensures r.0.Some? ==> r.0.value == dev.thread.queue[0] && r.1.thread.queue == dev.thread.queue[1..]
    ensures r.1.serial == dev.serial && r.1.key == dev.key
    ensures r.1.thread.decoder == dev.thread.decoder && r.1.thread.stopped == dev.thread.stopped
  {
    var (m, rest) := Poll(dev.thread.queue);
    (m, dev.(thread := dev.thread.(queue := rest)))
  }

  /** `getSignal`: the head message's samples. */
  function GetSignal(dev: Device): (r: (Option<seq<nat>>, Device))
    ensures r.0.None? <==> dev.thread.queue == []
    ensures r.0.None? ==> r.1 == dev
    ensures r.0.Some? ==>
      r.0.value == dev.thread.queue[0].signal &&
      r.1 == dev.(thread := dev.thread.(queue := dev.thread.queue[1..]))
  {
    var (m, d) := Take(dev);
    (if m.Some? then Some(m.value.signal) else None, d)
  }

  /** `getGyro`: the head message's (x, y) pair. */
  function GetGyro(dev: Device): (r: (Option<(int, int)>, Device))
    ensures r.0.None? <==> dev.thread.queue == []
    ensures r.0.None? ==> r.1 == dev
    ensures r.0.Some? ==>
      r.0.value == dev.thread.queue[0].gyro &&
      r.1 == dev.(thread := dev.thread.(queue := dev.thread.queue[1..]))
  {
    var (m, d) := Take(dev);
    (if m.Some? then Some(m.value.gyro) else None, d)
  }

  /** `getContactQuality`: the head message's whole quality dict. */
  function GetContactQuality(dev: Device): (r: (Option<Quality>, Device))
    ensures r.0.None? <==> dev.thread.queue == []
    ensures r.0.None? ==> r.1 == dev
    ensures r.0.Some? ==>
      r.0.value == dev.thread.queue[0].quality &&
      r.1 == dev.(thread := dev.thread.(queue := dev.thread.queue[1..]))
  {
    var (m, d) := Take(dev);
    (if m.Some? then Some(m.value.quality) else None, d)
  }

  /** `getBatteryLevel`: the head message's battery level. */
  function GetBatteryLevel(dev: Device): (r: (Option<nat>, Device))
    ensures r.0.None? <==> dev.thread.queue == []
    ensures r.0.None? ==> r.1 == dev
    ensures r.0.Some? ==>
      r.0.value == dev.thread.queue[0].battery &&
      r.1 == dev.(thread := dev.thread.(queue := dev.thread.queue[1..]))
  {
    var (m, d) := Take(dev);
    (if m.Some? then Some(m.value.battery) else None, d)
  }

  /** A consumer calling `getSignal` until it returns None receives the
      queued samples in order and leaves the queue empty. */
  method DrainSignals(dev: Device) returns (samples: seq<seq<nat>>, rest: Device)
    ensures |samples| == |dev.thread.queue|
    ensures forall i :: 0 <= i < |samples| ==> samples[i] == dev.thread.queue[i].signal
    ensures rest == dev.(thread := dev.thread.(queue := []))
  {
    var q := dev.thread.queue;
    samples := [];
    rest := dev;
    while true
      invariant |samples| <= |q|
      invariant rest == dev.(thread := dev.thread.(queue := q[|samples|..]))
      invariant forall i :: 0 <= i < |samples| ==> samples[i] == q[i].signal
      decreases |q| - |samples|
    {
      var (s, next) := GetSignal(rest);
      if s.None? {
        break;
      }
      samples := samples + [s.value];
      rest := next;
    }
  }

  /** A getter taking a message before or after the thread runs on makes
      no difference to what it takes or to what is left. */
  lemma PollCommutesWithRun(decrypt: Cipher, dev: Device, ins: seq<Read>)
    requires dev.thread.queue != []
    ensures Take(Acquire(decrypt, dev, ins)) == (Take(dev).0, Acquire(decrypt, Take(dev).1, ins))
  {
    var t := dev.thread;
    RunAppendsOnly(decrypt, dev.key, t, t.queue[1..], ins);
    DropHead(t.queue, Run(decrypt, dev.key, t, ins).queue);
  }

  /** Dropping the head of a sequence that extends a non-empty prefix. */
  lemma DropHead(a: seq<Message>, c: seq<Message>)
    requires a <= c && a != []
    ensures c[0] == a[0] && c[1..] == a[1..] + c[|a|..]
  {
    assert a == c[..|a|];
  }

  /** The two drivers agree on every frame: the thread's decoder state after
      a frame is the synchronous driver's, and it publishes a message exactly
      when `acquireData` returns samples, holding those samples. On a read
      error the synchronous driver carries on unchanged while the thread
      stops with the decoder state as it was. */
  lemma DriversAgree(decrypt: Cipher, e: Epoc.Session, q: seq<Message>, read: Read)
    requires e.key.Some?
    ensures
      var r := ThreadStep(decrypt, e.key.value, Thread(e.decoder, q, None), read);
      var (e', samples) := Epoc.AcquireData(decrypt, e, read);
      && r.decoder == e'.decoder
      && (samples.None? ==> r.queue == q)
      && (samples.Some? ==> r.queue == q + [Message(samples.value,
            (e'.decoder.gyroX, e'.decoder.gyroY), e'.decoder.battery, e'.decoder.quality)])
      && (r.stopped.Some? <==> read.UsbError?)
  {
    if read.Frame? {
      var f := Plaintext(decrypt, e.key.value, read.raw);
      if !IsBatteryFrame(f) {
        StepData(e.decoder, f);
      }
    }
  }

  /** The device's key is the key the synchronous driver's
      `setupEncryption()` derives with its default, research mode. */
  lemma DeviceKeyIsResearchKey(serial: seq<byte>)
    ensures NewDevice(serial).Success? <==> Epoc.SetupEncryption(Epoc.New(serial), true).Success?
    ensures NewDevice(serial).Success? ==>
      Some(NewDevice(serial).value.key) == Epoc.SetupEncryption(Epoc.New(serial), true).value.key
  {
  }

  // The messages as the source builds them: 'signal' and 'quality' refer to
  // the thread's one sample row and one quality dict, so a consumer sees
  // whatever the thread wrote last, not what the frame carried.

  /** `getSignal` as written: the head message's 'signal' entry is the
      thread's current sample row. */
  function AsWrittenGetSignal(dev: Device): (r: (Option<seq<nat>>, Device))
    ensures r.0.None? <==> dev.thread.queue == [] || dev.thread.decoder.signal.None?
    ensures r.0.Some? ==> r.0 == dev.thread.decoder.signal
    ensures r.1 == Take(dev).1
  {
    var (m, d) := Take(dev);
    (if m.Some? then dev.thread.decoder.signal else None, d)
  }

  /** `getContactQuality` as written: the head message's 'quality' entry is
      the thread's current quality dict. */
  function AsWrittenGetContactQuality(dev: Device): (r: (Option<Quality>, Device))
    ensures r.0.None? <==> dev.thread.queue == []
    ensures r.0.Some? ==> r.0.value == dev.thread.decoder.quality
    ensures r.1 == Take(dev).1
  {
    var (m, d) := Take(dev);
    (if m.Some? then Some(dev.thread.decoder.quality) else None, d)
  }

  /** The loop over one read is one iteration. */
  lemma RunOne(decrypt: Cipher, key: seq<byte>, t: Thread, a: Read)
    requires t.stopped.None?
    ensures Run(decrypt, key, t, [a]) == ThreadStep(decrypt, key, t, a)
  {
    assert [a][1..] == [];
  }

  /** The loop over two reads, the first a frame, is two iterations. */
  lemma RunTwo(decrypt: Cipher, key: seq<byte>, t: Thread, a: Read, b: Read)
    requires t.stopped.None? && a.Frame?
    ensures Run(decrypt, key, t, [a, b]) ==
      ThreadStep(decrypt, key, ThreadStep(decrypt, key, t, a), b)
  {
    assert [a, b][1..] == [b];
    RunOne(decrypt, key, ThreadStep(decrypt, key, t, a), b);
  }

  /** After two data frames with different samples, the as-written first
      message shows the second frame's samples, while the snapshot message
      keeps the first frame's. */
  lemma AliasedSignalIsLatest(decrypt: Cipher, serial: seq<byte>, key: seq<byte>, raw1: Block, raw2: Block)
    requires !IsBatteryFrame(Plaintext(decrypt, key, raw1))
    requires !IsBatteryFrame(Plaintext(decrypt, key, raw2))
    ensures
      var dev := Acquire(decrypt, Device(serial, key, ThreadInit()), [Frame(raw1), Frame(raw2)]);
      && GetSignal(dev).0 == Some(Channels(Plaintext(decrypt, key, raw1)))
      && AsWrittenGetSignal(dev).0 == Some(Channels(Plaintext(decrypt, key, raw2)))
  {
    var ins := [Frame(raw1), Frame(raw2)];
    var f1 := Plaintext(decrypt, key, raw1);
    var f2 := Plaintext(decrypt, key, raw2);
    var t1 := ThreadStep(decrypt, key, ThreadInit(), Frame(raw1));
    var t2 := ThreadStep(decrypt, key, t1, Frame(raw2));
    RunTwo(decrypt, key, ThreadInit(), Frame(raw1), Frame(raw2));
    StepData(ThreadInit().decoder, f1);
    StepData(t1.decoder, f2);
    assert t2.queue[0] == t1.queue[0] == Publish(Step(ThreadInit().decoder, f1));
  }

  /** After two data frames, the snapshot first message holds the first
      frame's quality value under the first frame's electrode, while the
      as-written one holds the second frame's value under the second's. */
  lemma AliasedQualityIsLatest(decrypt: Cipher, serial: seq<byte>, key: seq<byte>, raw1: Block, raw2: Block)
    requires !IsBatteryFrame(Plaintext(decrypt, key, raw1))
    requires !IsBatteryFrame(Plaintext(decrypt, key, raw2))
    ensures
      var dev := Acquire(decrypt, Device(serial, key, ThreadInit()), [Frame(raw1), Frame(raw2)]);
      var f1 := Plaintext(decrypt, key, raw1);
      var f2 := Plaintext(decrypt, key, raw2);
      && GetContactQuality(dev).0.Some?
      && Schedule(LeadByte(f1)) in GetContactQuality(dev).0.value
      && GetContactQuality(dev).0.value[Schedule(LeadByte(f1))] == Uint(f1[107..121])
      && AsWrittenGetContactQuality(dev).0.Some?
      && Schedule(LeadByte(f2)) in AsWrittenGetContactQuality(dev).0.value
      && AsWrittenGetContactQuality(dev).0.value[Schedule(LeadByte(f2))] == Uint(f2[107..121])
  {
    var f1 := Plaintext(decrypt, key, raw1);
    var f2 := Plaintext(decrypt, key, raw2);
    var t1 := ThreadStep(decrypt, key, ThreadInit(), Frame(raw1));
    var t2 := ThreadStep(decrypt, key, t1, Frame(raw2));
    RunTwo(decrypt, key, ThreadInit(), Frame(raw1), Frame(raw2));
    StepQuality(ThreadInit().decoder, f1);
    StepQuality(t1.decoder, f2);
    assert t2.queue[0] == t1.queue[0] == Publish(Step(ThreadInit().decoder, f1));
  }

  /** A cipher that leaves every block as it is. */
  const Identity: Cipher := (k, b) => b

  /** A report of 32 zero bytes: a data frame with counter 0 and all samples 0. */
  const ZeroReport: Block := seq(32, _ => 0)

  /** The zero report with byte 1 set to 1, which puts 64 into the F3 sample. */
  const OneReport: Block := ZeroReport[1 := 1]

  /** The zero report with byte 14 set to 1, which puts 2 into the quality
      field; its counter is still 0, which names F3. */
  const TwoReport: Block := ZeroReport[14 := 1]

  /** Under the identity cipher both reports are data frames, and their F3
      samples differ. */
  lemma WitnessFrames()
    ensures !IsBatteryFrame(Plaintext(Identity, [], ZeroReport))
    ensures !IsBatteryFrame(Plaintext(Identity, [], OneReport))
    ensures Channels(Plaintext(Identity, [], ZeroReport)) != Channels(Plaintext(Identity, [], OneReport))
  {
    var fz := Plaintext(Identity, [], ZeroReport);
    var fo := Plaintext(Identity, [], OneReport);
    assert fz == BitsOf(ZeroReport) && fo == BitsOf(OneReport);
    assert ZeroReport[0] == 0 && OneReport[0] == 0 && ZeroReport[1] == 0 && OneReport[1] == 1;
    BitsOfBit(ZeroReport, 0, 0);
    BitsOfBit(OneReport, 0, 0);
    assert ByteBits(0)[0] == false;
    BitsOfBit(ZeroReport, 1, 7);
    BitsOfBit(OneReport, 1, 7);
    assert ByteBits(0)[7] == false && ByteBits(1)[7] == true;
    assert fz[8..22][7] != fo[8..22][7];
    if Uint(fz[8..22]) == Uint(fo[8..22]) {
      UintInjective(fz[8..22], fo[8..22]);
    }
    assert Channels(fz)[0] != Channels(fo)[0];
  }

  /** The identity cipher and two all-zero reports except for one bit of the
      F3 sample: both are data frames, and the consumer of the first message
      reads the second frame's samples. */
  lemma AliasingWitness()
    ensures
      var dev := Acquire(Identity, Device([], [], ThreadInit()), [Frame(ZeroReport), Frame(OneReport)]);
      AsWrittenGetSignal(dev).0 != GetSignal(dev).0
  {
    WitnessFrames();
    AliasedSignalIsLatest(Identity, [], [], ZeroReport, OneReport);
  }

  /** Under the identity cipher the zero report and TwoReport are data frames
      with counter 0, and their quality fields differ. */
  lemma QualityWitnessFrames()
    ensures !IsBatteryFrame(Plaintext(Identity, [], ZeroReport))
    ensures !IsBatteryFrame(Plaintext(Identity, [], TwoReport))
    ensures LeadByte(Plaintext(Identity, [], ZeroReport)) == 0
    ensures LeadByte(Plaintext(Identity, [], TwoReport)) == 0
    ensures Uint(Plaintext(Identity, [], ZeroReport)[107..121]) != Uint(Plaintext(Identity, [], TwoReport)[107..121])
  {
    var fz := Plaintext(Identity, [], ZeroReport);
    var ft := Plaintext(Identity, [], TwoReport);
    assert fz == BitsOf(ZeroReport) && ft == BitsOf(TwoReport);
    assert ZeroReport[0] == 0 && TwoReport[0] == 0 && ZeroReport[14] == 0 && TwoReport[14] == 1;
    BitsOfBit(ZeroReport, 14, 7);
    BitsOfBit(TwoReport, 14, 7);
    assert ByteBits(0)[7] == false && ByteBits(1)[7] == true;
    assert fz[107..121][12] != ft[107..121][12];
    if Uint(fz[107..121]) == Uint(ft[107..121]) {
      UintInjective(fz[107..121], ft[107..121]);
    }
  }

  /** The identity cipher, the zero report and then TwoReport: the consumer of
      the first message reads the second frame's F3 quality. */
  lemma QualityAliasingWitness()
    ensures
      var dev := Acquire(Identity, Device([], [], ThreadInit()), [Frame(ZeroReport), Frame(TwoReport)]);
      AsWrittenGetContactQuality(dev).0 != GetContactQuality(dev).0
  {
    QualityWitnessFrames();
    AliasedQualityIsLatest(Identity, [], [], ZeroReport, TwoReport);
  }
}
