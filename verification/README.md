# Emotiv EPOC protocol decoder, modelled in Dafny

This project models the protocol-decoding core of a Python driver for the
Emotiv EPOC EEG headset. The driver exists in two forms:

- `EmotivEPOC` (epoc.py) is synchronous: each `acquireData` call reads one
  report and updates the stored state.
- `EmotivDataAcquisitionThread` and `EmotivDevice` (epoc_iohub.py) run the
  same decoder in a thread. The thread puts one message per data frame on a
  queue, and the device's getters take messages off that queue without
  blocking.

The modules follow the driver's structure:

- `Bits`: how `BitArray` reads bytes and fields. Bytes become a big-endian
  bit string, and `.uint` is the big-endian value of a slice. The module
  holds the round trip between a value and its fixed-width representation.
- `Electrodes`: the fourteen electrode sites, their names, and the channel
  order `CH_F3 .. CH_F4`.
- `Tables`: `cqOrder` and `battery_levels`, both built the way the
  constructors build them. Each is proved equal to a closed formula.
- `Keys`: the AES key interleave `setupEncryption` uses for research and
  consumer headsets.
- `Layout`: where each field sits in the 256-bit decrypted report. It also
  holds a reference encoder, and decoding its output returns every field.
- `Transport`: a read delivers a 32-byte block or fails with an errno. The
  decryption is a function parameter.
- `Decoder`: the decoder state, with counter, battery, gyro, the quality
  dict and the sample row, and the per-frame step both drivers apply.
- `Epoc`: the synchronous driver and its accessors.
- `IoHub`: the acquisition thread as a fold over its reads, producing a
  queue of messages. It also holds the device, its non-blocking getters and
  the comparison with the synchronous driver.

The two source files build `cqOrder`, `battery_levels` and the initial quality
dict with identical code (epoc.py lines 53-62, 85-94 and 109-114; epoc_iohub.py
lines 37-46, 69-78 and 80-85). Their per-frame decoders are also identical
(epoc.py lines 203-232, epoc_iohub.py lines 101-131). The model therefore
defines each table and the step once and uses them from both drivers.
`IoHub.DriversAgree` states that the two drivers agree frame by frame.

`Decoder.Step` looks up the quality key through `Tables.Schedule` and the
battery level through `Tables.BatteryPercent`. These are closed formulas.
`Tables.CqOrderIsSchedule` and `Tables.BatteryLevelsAgree` prove them equal
to the constructed list and dict at every index the step can use.
`Decoder.StepQuality` and `Decoder.BatteryTableLookup` restate the step in
terms of the tables themselves.

Three facts about the code that its comments and field names do not make
plain:

- `cqOrder` has 129 entries (16 + 48 + 16 + 1 + 4 × 12), although the
  comment at epoc.py line 61 says the pattern repeats "until 127". The last
  entry is beyond any 7-bit counter.
- Gyro X is read from the 7 bits 233-239 and gyro Y from the 8 bits 240-247
  (epoc.py lines 231-232), so X ranges over -106..21 and Y over -106..149.
- For the serial "123456789ABCDEF0" in research mode, the key is
  30 00 46 54 45 10 44 42 30 00 46 48 45 00 44 50: its even positions hold
  the characters '0', 'F', 'E', 'D' at serial positions 15, 14, 13 and 12,
  twice over.

## Model

| member | source | states |
|---|---|---|
| Bits.Uint | epoc.py:207 | the `.uint` of an n-bit slice is below 2^n, and its top bit is set exactly when the value is at least 2^(n-1) |
| Bits.UintOfToBits | epoc.py:215-228 | reading back the w-bit big-endian representation of v gives v |
| Bits.ToBitsOfUint | epoc.py:215-228 | every bit string is the representation of its own `.uint`, so `.uint` loses nothing at a fixed width |
| Bits.UintInjective | epoc.py:215-228 | two slices of one width with the same `.uint` are the same bits |
| Bits.BitsOf | epoc.py:193 | `BitArray(bytes=...)` turns n bytes into 8n bits |
| Bits.BitsOfByte | epoc.py:193 | in `BitArray(bytes=...)`, bits 8i to 8i+7 read back as byte i |
| Transport.Plaintext | epoc.py:192-193 | the lead byte of the decoded report is the first decrypted byte |
| Transport.PlaintextBytes | epoc.py:192-193 | the decoder's 256 bits carry the 32 decrypted bytes in order, most significant bit first |
| Electrodes.Name | epoc_iohub.py:49-50 | an electrode's name is the entry of `channelNames` at its channel index |
| Electrodes.Parse | epoc.py:254-259 | a string names an electrode exactly when it is one of the fourteen quality-dict keys, and then it names that one |
| Electrodes.ParseName | epoc.py:109-114 | the fourteen names are distinct, so each name leads back to its electrode |
| Electrodes.Channel | epoc.py:37-38 | every electrode has a channel index `CH_<name>` below 14 that the channel order maps back to it |
| Electrodes.ChannelOrderIsPermutation | epoc.py:37-38 | the channel order lists each of the fourteen electrodes exactly once |
| Tables.Repeat | epoc.py:62 | `list * n` has n times the length, starts with the list, and repeats with the list's period |
| Tables.CqOrder | epoc.py:53-62 | the constructed `cqOrder` has 129 entries |
| Tables.CqOrderLayout | epoc.py:53-62 | the entries are: the sixteen listed names; 48 unknowns at 16-63; entries 64-79 equal to 0-15; FC6 at 80; and from 81 to 128 the last four entries of the first 81 (F4, F8, AF4, FC6), repeated |
| Tables.CqOrderIsSchedule | epoc.py:53-62 | every entry of the constructed list equals the closed formula `Schedule` |
| Tables.UnknownCounters | epoc.py:56-57 | among 7-bit counters, exactly 16-63 name no electrode |
| Tables.Range | epoc.py:92-94 | `range(lo, hi)` has hi - lo elements and contains exactly the integers in [lo, hi) |
| Tables.FromKeys | epoc.py:92-94 | the dict built from `range(lo, hi)` with one value has exactly the keys lo..hi-1, each mapped to that value |
| Tables.Update | epoc.py:92-94 | `d.update(u)` has the keys of both; a key of `u` takes `u`'s value, and any other key keeps `d`'s |
| Tables.BatteryLevels | epoc.py:85-94 | the dict's keys are the literal's keys and codes 128-255. The literal's keys survive the updates, codes 128-225 give 0 and codes 248-255 give 100 |
| Tables.BatteryLevelsAgree | epoc.py:85-94 | after both `update` calls, the dict has a key exactly where the closed formula is defined, with the same level there |
| Tables.BatteryDomain | epoc.py:85-94 | `battery_levels` is defined for exactly the codes 128-255, and every level lies in 0..100 |
| Tables.BatterySegments | epoc.py:85-94 | codes 128-225 give 0, codes 226-247 give the literal's values, and codes 248-255 give 100 |
| Tables.BatteryExamples | epoc.py:85-94 | 247 gives 99, 226 gives 1, 250 gives 100 and 200 gives 0 |
| Tables.PercentMonotonic | epoc.py:85-94 | the closed formula never decreases from one code to a larger one |
| Tables.BatteryMonotonic | epoc.py:85-94 | a larger battery code never maps to a lower percentage in the dict |
| Keys.DeriveKey | epoc.py:163-185 | a key exists exactly when the serial has at least 16 characters. It has 16 bytes: even positions hold serial[15], [14], [13], [12] twice, and odd positions hold the mode's constants |
| Keys.KeyDependsOnLastFour | epoc.py:168-185 | serials that agree on characters 12-15 get the same key |
| Keys.ModesDiffer | epoc.py:168-185 | for every serial, the research key has 0x54 at position 3 and the consumer key has 0x48, so the two keys differ |
| Keys.ResearchKeyExample | epoc.py:168-176 | serial "123456789ABCDEF0" in research mode gives 30 00 46 54 45 10 44 42 30 00 46 48 45 00 44 50 |
| Layout.ChannelOffsetsAreRuns | epoc.py:215-228 | the fourteen channel fields start at 8 + 14i for i < 7 and at 134 + 14(i - 7) after that, and they fit in the frame |
| Layout.LeadByte | epoc.py:204-207 | the lead byte is below 256, and bit 0 is set exactly when it is at least 128 |
| Layout.Channels | epoc.py:215-228 | a data frame gives fourteen samples; sample i is the `.uint` of its 14-bit field and lies in 0..16383 |
| Layout.QualityValue | epoc.py:210 | the quality field, bits 107-120, lies in 0..16383 |
| Layout.GyroX | epoc.py:231 | gyro X is `bits[233:240].uint - 106`, lies in -106..21, and is 0 exactly when the raw value is 106 |
| Layout.GyroY | epoc.py:232 | gyro Y is `bits[240:248].uint - 106`, lies in -106..149, and is 0 exactly when the raw value is 106 |
| Layout.DecodeEncode | epoc.py:204-232 | for valid fields, a frame built by the reference encoder is a data frame, and decoding returns every field it was given |
| Decoder.InitialQuality | epoc.py:109-114 | the initial quality dict maps all fourteen electrodes to 0 and has no None key |
| Decoder.Init | epoc.py:104-114 | the constructor's state satisfies the decoder invariant: counter and battery 0, no samples yet, and the initial all-zero quality dict |
| Decoder.BatteryOf | epoc.py:204-205 | a battery frame's level is the table's percentage for its lead byte, at most 100 |
| Decoder.BatteryTableLookup | epoc.py:205 | on a battery frame, `battery_levels[bits[0:8].uint]` has an entry and returns that level |
| Decoder.Step | epoc.py:203-232 | every frame preserves the decoder invariant: all fourteen electrodes present and every field in range |
| Decoder.StepBattery | epoc.py:204-205 | a battery frame has a lead byte of at least 128 and changes the battery level only |
| Decoder.StepData | epoc.py:206-232 | a data frame keeps the battery level. It sets the counter (below 128), the fourteen samples and the two gyro values from their bit fields |
| Decoder.StepQuality | epoc.py:207-213 | a data frame writes the quality field under `cqOrder[counter]` and leaves every other electrode's value alone. For counters 16-63, all fourteen electrodes keep their values and the value goes under the None key |
| Epoc.New | epoc.py:44-114 | a new session has no key, all qualities at 0, and a state that satisfies the invariant |
| Epoc.SetupEncryption | epoc.py:163-187 | it succeeds exactly for serials of at least 16 characters and stores the key `DeriveKey` gives for the chosen mode: 16 bytes, with position 3 marking the mode. The serial and decoder state are unchanged |
| Epoc.AcquireData | epoc.py:190-234 | a read keeps the serial and key and preserves the decoder invariant |
| Epoc.AcquireDataResult | epoc.py:190-234 | a read error returns nothing and changes nothing. A frame returns samples exactly when it is a data frame, and they are its channel fields |
| Epoc.GetSignal | epoc.py:242-244 | samples, when returned, are the fourteen values now stored |
| Epoc.GetGyroX | epoc.py:246-248 | the returned X value lies in -106..21 |
| Epoc.GetGyroY | epoc.py:250-252 | the returned Y value lies in -106..149 |
| Epoc.GyroLatest | epoc.py:246-252 | the gyro getters return the new frame's fields after a data frame, and the old values after a battery frame or a read error |
| Epoc.GetContactQuality | epoc.py:254-259 | a value is returned exactly for the fourteen electrode names, and it is below 16384 |
| Epoc.ContactQualityByName | epoc.py:254-257 | for an electrode's name, it returns the value stored for that electrode |
| Epoc.GetBatteryLevel | epoc.py:261-263 | the stored level is a percentage, returned without reading |
| Epoc.BatteryLatest | epoc.py:203-205 | after a battery frame, the level is the table's entry for its lead byte. Data frames and read errors leave it unchanged |
| Epoc.FirstFrameScenario | epoc.py:203-234 | in a fresh session, a data frame with counter 0, F3 sample 100, quality 500 and raw gyro X 106 returns F3 = 100. F3's quality then reads 500, FC5's reads 0, and gyro X reads 0 |
| IoHub.StopOf | epoc_iohub.py:95-99 | errno 110 ends the thread as turned off; every other errno ends it as a USB error carrying that errno |
| IoHub.ThreadInit | epoc_iohub.py:79-85 | the thread starts with an empty queue, battery 0, and a state that satisfies the invariant |
| IoHub.Publish | epoc_iohub.py:134-137 | a message built from a valid state holds fourteen in-range samples, gyro values in their ranges, a battery percentage and a quality entry for every electrode |
| IoHub.ThreadStep | epoc_iohub.py:92-137 | one iteration only appends to the queue, at most one message |
| IoHub.Run | epoc_iohub.py:86-137 | the loop only appends to the queue, does nothing once stopped, and preserves the decoder invariant |
| IoHub.RunQueue | epoc_iohub.py:101-137 | the loop appends one message per data frame read before the first error, in frame order, and none for battery frames. Each message carries its frame's channels and gyro values |
| IoHub.RunStops | epoc_iohub.py:91-99 | the loop stops exactly when a read fails, with the exception that read's errno selects |
| IoHub.RunBattery | epoc_iohub.py:101-103 | the thread's battery level is that of the last battery frame read before the first error, or the level it started with |
| IoHub.RunAppend | epoc_iohub.py:91-137 | running over a + b is running over a and then over b |
| IoHub.MessageBattery | epoc_iohub.py:134-137 | the battery in a data frame's message is the level of the latest earlier battery frame, or the starting level (0 for a new thread) |
| IoHub.RunAppendsOnly | epoc_iohub.py:134 | what the loop does does not depend on the queue it finds; it only appends |
| IoHub.NewDevice | epoc_iohub.py:147-175 | construction succeeds exactly for serials of at least 16 characters, with the research-mode key and a fresh thread |
| IoHub.Acquire | epoc_iohub.py:247-248 | the running thread keeps the device's serial and key and only appends to the queue |
| IoHub.Poll | epoc_iohub.py:250-255 | a non-blocking get returns None and leaves the queue as it was exactly when the queue is empty. Otherwise it returns the head, and the head followed by the rest is the old queue |
| IoHub.Take | epoc_iohub.py:250-255 | a take finds nothing exactly when the queue is empty, and then changes nothing. Otherwise it returns the head and leaves the rest of the queue. Serial, key, decoder state and stop reason are unchanged |
| IoHub.GetSignal | epoc_iohub.py:250-255 | None with nothing changed on an empty queue. Otherwise the head message's samples, with exactly that message removed |
| IoHub.GetGyro | epoc_iohub.py:257-262 | None with nothing changed on an empty queue. Otherwise the head message's (x, y), with exactly that message removed |
| IoHub.GetContactQuality | epoc_iohub.py:264-269 | None with nothing changed on an empty queue. Otherwise the head message's quality dict, with exactly that message removed |
| IoHub.GetBatteryLevel | epoc_iohub.py:271-277 | None with nothing changed on an empty queue. Otherwise the head message's battery level, with exactly that message removed |
| IoHub.DrainSignals | epoc_iohub.py:250-255 | calling `getSignal` until it returns None yields every queued message's samples in queue order and leaves the queue empty |
| IoHub.PollCommutesWithRun | epoc_iohub.py:250-277 | taking a message before or after the thread runs on gives the same message and the same remaining device |
| IoHub.DriversAgree | epoc_iohub.py:101-131 | on every read, the thread's decoder state matches `acquireData`'s. It publishes a message exactly when `acquireData` returns samples, and the message holds those samples. It stops exactly on a read error |
| IoHub.DeviceKeyIsResearchKey | epoc_iohub.py:220-233 | the device's key is the key the synchronous driver derives by default, in research mode |
| IoHub.AsWrittenGetSignal | epoc_iohub.py:134-137 | the as-written `getSignal` returns the thread's current sample row whenever the queue is not empty |
| IoHub.AliasedSignalIsLatest | epoc_iohub.py:134-137 | after two data frames, the snapshot model's first message holds the first frame's samples, but the as-written reading shows the second frame's |
| IoHub.AliasingWitness | epoc_iohub.py:114-134 | with the identity cipher, an all-zero report followed by one whose byte 1 is 1 makes the as-written first message's samples differ from the snapshot ones |
| IoHub.AsWrittenGetContactQuality | epoc_iohub.py:134-137 | the as-written `getContactQuality` returns the thread's current quality dict whenever the queue is not empty |
| IoHub.AliasedQualityIsLatest | epoc_iohub.py:134-137 | after two data frames, the snapshot model's first message holds the first frame's quality value under its electrode, but the as-written reading holds the second frame's value under the second's |
| IoHub.QualityAliasingWitness | epoc_iohub.py:107-110 | with the identity cipher, an all-zero report followed by one whose byte 14 is 1 (F3 quality 2, counter 0) makes the as-written first message's quality dict differ from the snapshot one |

## Left out

- USB discovery and interface handling are not modelled: `_is_emotiv_epoc`,
  `enumerate`/`_enumerate`, kernel-driver detach and claim, and `disconnect`.
  They are pyusb I/O. The serial number is a constructor parameter, and the
  endpoint's reads are a sequence of `Transport.Read` values.
- AES decryption (`AES.new`, `cipher.decrypt`) is a foreign call. It is the
  parameter `decrypt` of type `Transport.Cipher`. Only the key derivation is
  modelled.
- Threading (`threading.Thread`, `is_running`, `startAcuisition`) is left
  out. `run` is a sequential fold over the reads, and the queue is a
  sequence. `IoHub.PollCommutesWithRun` shows that a getter that finds a
  message takes the same message, and leaves the same device, whether it
  runs before or after further iterations.
- Short reads are not modelled: every read delivers exactly 32 bytes.
- Floats and presentation values are left out: the numpy float buffer,
  `resolution` and `sampling_rate`. Samples are integers.
- Before the first data frame, the numpy buffer holds uninitialised memory.
  The model has no samples yet (None).
- The thread's constructor never sets `counter`, `gyroX` or `gyroY`. A
  message is put only after a data frame has set them, so the model starts
  them at 0 and this is never observable.
- `packetLoss` is initialised but never updated, so it is not modelled.
- The messages printed on read errors and on unknown electrode names are
  not modelled.
- `calibrateGyro` is not modelled: it is two further reads through the
  getters.
- Python-level errors are modelled as their evident intent. In
  epoc_iohub.py line 99, the name `usb_exception` is undefined, so any errno
  other than 110 would raise NameError; the model ends the thread with
  `UsbFailure(errno)`. `EmotivEPOCNotFoundException` is undefined in
  epoc_iohub.py, but it belongs to enumeration, which is not part of this
  model.
- Electrode names are strings. Passing Python's None to the synchronous
  `getContactQuality` would find the None key once an unknown-counter frame
  has written it; the model does not cover that.
- The synchronous `acquireData` returns the driver's own sample row, which
  later calls overwrite. The model returns the samples as a value.
- Epoc.AcquireData, Epoc.GetSignal, Epoc.GetGyroX, Epoc.GetGyroY, Epoc.AcquireDataResult,
  Epoc.GyroLatest, Epoc.BatteryLatest, IoHub.DriversAgree: require a key. Calling `acquireData` before
  `setupEncryption` raises AttributeError at epoc.py line 193, because the
  cipher does not exist yet; logger.py and logger2.py always call
  `setupEncryption` first.
- logger.py, logger2.py and test.py are command-line and GUI glue without
  protocol logic, so they are not modelled.

## Findings

| source | as written | input that shows it | evidently intended | confidence | as-written member | corrected member |
|---|---|---|---|---|---|---|
| epoc_iohub.py:134 | each message's 'signal' entry is the thread's single `sample_buffer` row, which every later data frame overwrites in place | two data frames read before the consumer's first `getSignal`, e.g. with the identity cipher an all-zero report followed by one whose byte 1 is 1 (F3 sample 64): the first message then shows the second frame's samples | each message carries the samples of the frame that produced it, as the separately copied 'gyro' and 'battery' entries do | not executed; high | IoHub.AsWrittenGetSignal (shown by IoHub.AliasingWitness and IoHub.AliasedSignalIsLatest) | IoHub.GetSignal (with IoHub.RunQueue) |
| epoc_iohub.py:137 | each message's 'quality' entry is the thread's single `quality` dict, which every later data frame updates in place | two data frames read before the consumer's first `getContactQuality`, e.g. with the identity cipher an all-zero report followed by one whose byte 14 is 1 (F3 quality 2): the first message then shows F3 quality 2 instead of 0 | each message carries the qualities as they stood after the frame that produced it | not executed; high | IoHub.AsWrittenGetContactQuality (shown by IoHub.QualityAliasingWitness and IoHub.AliasedQualityIsLatest) | IoHub.GetContactQuality (with IoHub.RunQueue) |
