/** The SlsReceiver device: it starts a receiver with the "sls"-tagged part of its
    configuration, and the receiver's callbacks hand it the frames.  Frames are collected per
    train in one of two `DetectorData` buffers; when a new train starts (or, without train
    ids, when the buffer is full) the buffer is written to the output channels and the other
    one takes over.  Two generations are modelled: slsReceiver/src (Legacy) and
    src/slsReceiver (Current).

    The callbacks run one after the other; the semaphore of each buffer and the strand that
    writes a flushed buffer out are not modelled, and the write-out happens at the flush.  The
    clock's train id, the time of a frame (kept as a whole number) and whether more than a
    second went by since the last rate update are parameters. */
module SlsReceivers {
  import opened Wrappers
  import opened Text
  import opened PixelWords
  import opened ReceiverDevices
  import opened TrainBuffers
  import SimReceiver
  import SimDefs

  /** The Karabo states the device takes. */
  datatype DeviceState = Unknown | Passive | Acquiring | Failed

  datatype Generation = Legacy | Current

  /** What a device reads from its configuration on each callback. */
  datatype Config = Config(kind: Kind, generation: Generation, framesPerTrain: nat, burstMode: bool, storageCellStart: int) {
    /** "framesPerTrain" is a UINT16 of at least 1. */
    predicate Valid() {
      0 < framesPerTrain < USHORT_MOD
    }
  }

  /** The parts of `sls_detector_header` the callback reads; `bunchId` is `detSpec1`. */
  datatype Header = Header(frameNumber: nat, bunchId: nat, debug: nat)

  const ALL_ONES_64: nat := 0xFFFF_FFFF_FFFF_FFFF
  const MAX_WARN_PER_ACQ: nat := 10
  const NO_MORE_MESSAGES: string := "No more messages will be logged for this acquisition."
  const EMPTY_BUFFER: string := "rawDataReadyCallBack: received empty buffer. Skip!"

  function Misaligned(dataSize: nat, frameSize: nat): string {
    "rawDataReadyCallBack: data size (" + NatToString(dataSize) + ") is not multiple of frameSize size ("
      + NatToString(frameSize) + ")! Skip data."
  }

  // ----- the warning limiter -----

  /** `logWarning`: ten messages per acquisition, then one notice, then silence. */
  function Warned(counter: nat, log: seq<string>, message: string): (nat, seq<string>) {
    if counter < MAX_WARN_PER_ACQ then (counter + 1, log + [message])
    else if counter == MAX_WARN_PER_ACQ then (counter + 1, log + [NO_MORE_MESSAGES])
    else (counter, log)
  }

  /** Several warnings in a row. */
  function WarnedAll(counter: nat, log: seq<string>, messages: seq<string>): (nat, seq<string>)
    decreases |messages|
  {
    if messages == [] then (counter, log)
    else
      var w := Warned(counter, log, messages[0]);
      WarnedAll(w.0, w.1, messages[1..])
  }

  function Min(a: nat, b: nat): nat {
    if a <= b then a else b
  }

  /** What the limiter logs of `messages` once `counter` warnings were seen. */
  function Logged(counter: nat, messages: seq<string>): seq<string> {
    if counter > MAX_WARN_PER_ACQ then []
    else
      var notice := if counter + |messages| > MAX_WARN_PER_ACQ then [NO_MORE_MESSAGES] else [];
      messages[..Min(|messages|, MAX_WARN_PER_ACQ - counter)] + notice
  }

  lemma {:induction false} WarnedAllLogs(counter: nat, log: seq<string>, messages: seq<string>)
    requires counter <= MAX_WARN_PER_ACQ + 1
    ensures WarnedAll(counter, log, messages) == (Min(counter + |messages|, MAX_WARN_PER_ACQ + 1), log + Logged(counter, messages))
    decreases |messages|
  {
    if messages == [] {
      assert Logged(counter, messages) == [];
      assert log + Logged(counter, messages) == log;
    } else {
      var w := Warned(counter, log, messages[0]);
      var rest := messages[1..];
      WarnedAllLogs(w.0, w.1, rest);
      if counter < MAX_WARN_PER_ACQ {
        assert messages[..Min(|messages|, MAX_WARN_PER_ACQ - counter)]
          == [messages[0]] + rest[..Min(|rest|, MAX_WARN_PER_ACQ - (counter + 1))];
        assert Logged(counter, messages) == [messages[0]] + Logged(counter + 1, rest);
        assert w.1 + Logged(counter + 1, rest) == log + Logged(counter, messages);
      } else if counter == MAX_WARN_PER_ACQ {
        assert messages[..0] == [];
        assert Logged(counter, messages) == [NO_MORE_MESSAGES];
        assert Logged(counter + 1, rest) == [];
        assert w.1 + Logged(counter + 1, rest) == log + Logged(counter, messages);
      } else {
        assert Logged(counter, messages) == [] && w == (counter, log);
      }
    }
  }

  /** From the start of an acquisition: the first ten warnings are logged, an eleventh brings
      the notice, and nothing after it is logged; the counter stops at 11. */
  lemma WarningsPerAcquisition(log: seq<string>, messages: seq<string>)
    ensures WarnedAll(0, log, messages).0 == Min(|messages|, MAX_WARN_PER_ACQ + 1)
    ensures WarnedAll(0, log, messages).1
      == log + messages[..Min(|messages|, MAX_WARN_PER_ACQ)] + (if |messages| > MAX_WARN_PER_ACQ then [NO_MORE_MESSAGES] else [])
  {
    WarnedAllLogs(0, log, messages);
  }

  // ----- the device as values -----

  /** The device's members: state, rate counters, the warning counter and log, which buffer
      receives, both buffers, and the trains written to the output channels. */
  datatype Device = Device(
    state: DeviceState,
    frameCount: int,
    lastFrameNum: nat,
    warnCounter: nat,
    warnings: seq<string>,
    index: nat,
    buffer0: Buffer,
    buffer1: Buffer,
    sent: seq<Buffer>)
  {
    /** `m_detectorData[m_detectorDataIdx]`. */
    function Receiving(): Buffer {
      if index == 0 then buffer0 else buffer1
    }

    function WithReceiving(b: Buffer): Device {
      if index == 0 then this.(buffer0 := b) else this.(buffer1 := b)
    }

    /** The other buffer: the one last written out, or still unused. */
    function Waiting(): Buffer {
      if index == 0 then buffer1 else buffer0
    }

    /** Both buffers hold a train of the configured size. */
    predicate Ready(cfg: Config) {
      && index < 2
      && buffer0.Sized(DetectorSize(cfg.kind), cfg.framesPerTrain)
      && buffer1.Sized(DetectorSize(cfg.kind), cfg.framesPerTrain)
      && buffer0.accumulatedFrames < USHORT_MOD && buffer1.accumulatedFrames < USHORT_MOD
    }
  }

  /** `logWarning(message)` on the device. */
  function Warn(d: Device, message: string): Device {
    var w := Warned(d.warnCounter, d.warnings, message);
    d.(warnCounter := w.0, warnings := w.1)
  }

  /** `startAcquisitionCallBack`: acquiring, counters at 0, both buffers resized and reset,
      buffer 0 receiving. */
  function Started(cfg: Config, d: Device): (r: Device)
    ensures r.Ready(cfg)
  {
    var size := DetectorSize(cfg.kind);
    d.(state := Acquiring, frameCount := 0, lastFrameNum := 0, warnCounter := 0, index := 0,
      buffer0 := Empty(d.buffer0.lastTrainId, size, cfg.framesPerTrain),
      buffer1 := Empty(d.buffer1.lastTrainId, size, cfg.framesPerTrain))
  }

  /** The train id of a frame: a firmware bunch id other than 0 and all-ones (Current only),
      else the clock's. */
  function TrainIdOf(g: Generation, bunchId: nat, clockTrainId: nat): nat {
    if g == Current && bunchId != 0 && bunchId != ALL_ONES_64 then bunchId else clockTrainId
  }

  /** Whether the receiving buffer is written out before the frame is looked at: a new train
      with frames collected, or no train id and a full buffer. */
  predicate FlushDue(cfg: Config, b: Buffer, trainId: nat, memoryCell: nat) {
    || (IsNewTrain(cfg.kind, cfg.generation == Current && cfg.burstMode, cfg.storageCellStart, trainId, b.lastTrainId, memoryCell)
        && b.accumulatedFrames > 0)
    || (trainId == 0 && b.accumulatedFrames >= cfg.framesPerTrain)
  }

  /** The flush: the receiving buffer is written out and reset, the other buffer receives
      and takes the frame's train stamp. */
  function Flushed(d: Device, trainId: nat): Device {
    var out := d.Receiving();
    var e := d.WithReceiving(Cleared(out)).(sent := d.sent + [out], index := (d.index + 1) % 2);
    e.WithReceiving(e.Receiving().(lastTrainId := trainId))
  }

  /** Whether a frame's memory cell is stored: always in Current (255 where the detector has
      none), only for Jungfrau in Legacy. */
  predicate StoresCell(cfg: Config) {
    cfg.generation == Current || cfg.kind == Jungfrau
  }

  lemma SlotFits(size: nat, slot: nat, framesPerTrain: nat)
    requires slot < framesPerTrain
    ensures size * slot + size <= size * framesPerTrain
  {
    assert size * (slot + 1) == size * slot + size;
    assert size * framesPerTrain == size * (slot + 1) + size * (framesPerTrain - slot - 1);
  }

  /** One frame of a packet written to slot `slot` of a buffer. */
  function WriteSlot(cfg: Config, b: Buffer, data: seq<Word>, idx: nat, slot: nat, h: Header, time: int): (r: Buffer)
    requires b.Sized(DetectorSize(cfg.kind), cfg.framesPerTrain) && slot < cfg.framesPerTrain
    requires (idx + 1) * DetectorSize(cfg.kind) <= |data|
    ensures r.Sized(DetectorSize(cfg.kind), cfg.framesPerTrain)
  {
    var size := DetectorSize(cfg.kind);
    SlotFits(size, slot, cfg.framesPerTrain);
    b.(adc := Splice(b.adc, size * slot, AdcFrame(cfg.kind, data, idx)),
      gain := Splice(b.gain, size * slot, GainFrame(cfg.kind, data, idx)),
      memoryCell := if StoresCell(cfg) then b.memoryCell[slot := MemoryCell(cfg.kind, h.debug)] else b.memoryCell,
      frameNumber := b.frameNumber[slot := h.frameNumber],
      bunchId := if cfg.generation == Current then b.bunchId[slot := h.bunchId] else b.bunchId,
      timestamp := b.timestamp[slot := time])
  }

  /** A packet of n frames accepted into a buffer: every frame goes to the slot the buffer's
      count showed on entry, so the last one is what stays there, and the count grows by n
      (as an unsigned short). */
  function Accumulated(cfg: Config, b: Buffer, data: seq<Word>, n: nat, h: Header, time: int): (r: Buffer)
    requires b.Sized(DetectorSize(cfg.kind), cfg.framesPerTrain) && b.accumulatedFrames < cfg.framesPerTrain
    requires 1 <= n && n * DetectorSize(cfg.kind) <= |data|
    ensures r.Sized(DetectorSize(cfg.kind), cfg.framesPerTrain)
  {
    WriteSlot(cfg, b, data, n - 1, b.accumulatedFrames, h, time).(accumulatedFrames := (b.accumulatedFrames + n) % USHORT_MOD)
  }

  /** Rate bookkeeping after an accepted packet: the first one records its frame number, a
      later one more than a second after the last update starts the count again. */
  function Counted(d: Device, n: nat, frameNumber: nat, secondElapsed: bool): Device {
    if d.lastFrameNum == 0 then d.(frameCount := d.frameCount + n, lastFrameNum := frameNumber)
    else if secondElapsed && frameNumber > d.lastFrameNum then d.(frameCount := 0, lastFrameNum := frameNumber)
    else d.(frameCount := d.frameCount + n)
  }

  /** The device after the flush decision of `rawDataReadyCallBack`. */
  function AfterFlush(cfg: Config, d: Device, h: Header, clockTrainId: nat): (r: Device)
    requires d.Ready(cfg)
    ensures r.Ready(cfg)
  {
    var trainId := TrainIdOf(cfg.generation, h.bunchId, clockTrainId);
    if FlushDue(cfg, d.Receiving(), trainId, MemoryCell(cfg.kind, h.debug)) then Flushed(d, trainId) else d
  }

  /** What the callback does with the packet once the flush is decided: an empty or
      misaligned packet is warned about and dropped, a packet for a full buffer is dropped
      silently, any other is accumulated and counted. */
  function Taken(cfg: Config, d: Device, h: Header, data: seq<Word>, dataSize: nat, time: int, secondElapsed: bool): (r: Device)
    requires cfg.Valid() && d.Ready(cfg) && |data| == dataSize / 2
    ensures r.Ready(cfg)
  {
    var frameSize := 2 * DetectorSize(cfg.kind);
    if dataSize == 0 then Warn(d, EMPTY_BUFFER)
    else if dataSize % frameSize != 0 then Warn(d, Misaligned(dataSize, frameSize))
    else if d.Receiving().accumulatedFrames >= cfg.framesPerTrain then d
    else
      var n := dataSize / frameSize;
      FramesFit(DetectorSize(cfg.kind), dataSize, |data|);
      Counted(d.WithReceiving(Accumulated(cfg, d.Receiving(), data, n, h, time)), n, h.frameNumber, secondElapsed)
  }

  /** `rawDataReadyCallBack` for a packet of `dataSize` bytes whose 16-bit words are `data`. */
  function RawData(cfg: Config, d: Device, h: Header, data: seq<Word>, dataSize: nat, clockTrainId: nat, time: int, secondElapsed: bool): (r: Device)
    requires cfg.Valid() && d.Ready(cfg) && |data| == dataSize / 2
    ensures r.Ready(cfg)
  {
    Taken(cfg, AfterFlush(cfg, d, h, clockTrainId), h, data, dataSize, time, secondElapsed)
  }

  lemma FramesFit(size: nat, dataSize: nat, words: nat)
    requires size > 0 && dataSize > 0 && dataSize % (2 * size) == 0 && words == dataSize / 2
    ensures 1 <= dataSize / (2 * size) && dataSize / (2 * size) * size <= words
  {
    var n := dataSize / (2 * size);
    assert dataSize == n * (2 * size);
    assert n * size * 2 == dataSize;
  }

  // ----- what the callbacks promise -----

  /** The packet handling after the flush decision touches only the receiving buffer, the
      rate counters and the warnings. */
  lemma TakenKeeps(cfg: Config, d: Device, h: Header, data: seq<Word>, dataSize: nat, time: int, secondElapsed: bool)
    requires cfg.Valid() && d.Ready(cfg) && |data| == dataSize / 2
    ensures var r := Taken(cfg, d, h, data, dataSize, time, secondElapsed);
      r.state == d.state && r.index == d.index && r.sent == d.sent && r.Waiting() == d.Waiting()
  {
    var size := DetectorSize(cfg.kind);
    if dataSize > 0 && dataSize % (2 * size) == 0 && d.Receiving().accumulatedFrames < cfg.framesPerTrain {
      FramesFit(size, dataSize, |data|);
      var n := dataSize / (2 * size);
      var e := d.WithReceiving(Accumulated(cfg, d.Receiving(), data, n, h, time));
      assert e.Waiting() == d.Waiting() && e.index == d.index;
      assert Taken(cfg, d, h, data, dataSize, time, secondElapsed) == Counted(e, n, h.frameNumber, secondElapsed);
    }
  }

  /** A packet writes the receiving buffer out exactly when the flush rule says so, and then
      only that buffer: it is sent as it was, waits cleared, and the other buffer receives
      under the packet's train id.  Without a flush nothing is sent and the same buffer keeps
      receiving. */
  lemma FlushRule(cfg: Config, d: Device, h: Header, data: seq<Word>, dataSize: nat, clockTrainId: nat, time: int, secondElapsed: bool)
    requires cfg.Valid() && d.Ready(cfg) && |data| == dataSize / 2
    ensures var trainId := TrainIdOf(cfg.generation, h.bunchId, clockTrainId);
      var due := FlushDue(cfg, d.Receiving(), trainId, MemoryCell(cfg.kind, h.debug));
      var r := RawData(cfg, d, h, data, dataSize, clockTrainId, time, secondElapsed);
      && r.sent == d.sent + (if due then [d.Receiving()] else [])
      && r.index == (if due then 1 - d.index else d.index)
      && (due ==> r.Waiting() == Cleared(d.Receiving()))
      && (!due ==> r.Waiting() == d.Waiting())
      && r.state == d.state
  {
    var d1 := AfterFlush(cfg, d, h, clockTrainId);
    TakenKeeps(cfg, d1, h, data, dataSize, time, secondElapsed);
  }

  /** Without train ids from the clock or the firmware, and outside burst mode, a buffer is
      written out exactly when it holds a whole train. */
  lemma FlushWhenFull(cfg: Config, b: Buffer, memoryCell: nat)
    requires !(cfg.kind == Jungfrau && cfg.generation == Current && cfg.burstMode)
    ensures FlushDue(cfg, b, 0, memoryCell) <==> b.accumulatedFrames >= cfg.framesPerTrain
  {
    NewTrainRule(cfg.kind, cfg.generation == Current && cfg.burstMode, cfg.storageCellStart, 0, b.lastTrainId, memoryCell);
  }

  /** With train ids, outside burst mode, a buffer with frames is written out when a later
      train begins, and never while the train id stays below or at its own. */
  lemma FlushOnNewTrain(cfg: Config, b: Buffer, trainId: nat, memoryCell: nat)
    requires !(cfg.kind == Jungfrau && cfg.generation == Current && cfg.burstMode)
    requires trainId != 0
    ensures FlushDue(cfg, b, trainId, memoryCell) <==> trainId > b.lastTrainId && b.accumulatedFrames > 0
  {
    NewTrainRule(cfg.kind, cfg.generation == Current && cfg.burstMode, cfg.storageCellStart, trainId, b.lastTrainId, memoryCell);
  }

  /** In burst mode (Current Jungfrau) a buffer with frames is written out when the frame's
      storage cell is the one the detector starts from, whatever the train id. */
  lemma FlushInBurstMode(cfg: Config, b: Buffer, trainId: nat, memoryCell: nat)
    requires cfg.kind == Jungfrau && cfg.generation == Current && cfg.burstMode && trainId != 0
    ensures FlushDue(cfg, b, trainId, memoryCell) <==> memoryCell == cfg.storageCellStart && b.accumulatedFrames > 0
  {
    NewTrainRule(cfg.kind, true, cfg.storageCellStart, trainId, b.lastTrainId, memoryCell);
  }

  /** The Legacy device stamps frames with the clock's train id only; the Current one takes
      the firmware's bunch id unless it is 0 or all ones. */
  lemma TrainIdRule(g: Generation, bunchId: nat, clockTrainId: nat)
    ensures g == Legacy ==> TrainIdOf(g, bunchId, clockTrainId) == clockTrainId
    ensures g == Current && bunchId != 0 && bunchId != ALL_ONES_64 ==> TrainIdOf(g, bunchId, clockTrainId) == bunchId
    ensures (bunchId == 0 || bunchId == ALL_ONES_64) ==> TrainIdOf(g, bunchId, clockTrainId) == clockTrainId
  {
  }

  /** An empty or misaligned packet stores and counts nothing; it costs one warning. */
  lemma MalformedPacketSkipped(cfg: Config, d: Device, h: Header, data: seq<Word>, dataSize: nat, clockTrainId: nat, time: int, secondElapsed: bool)
    requires cfg.Valid() && d.Ready(cfg) && |data| == dataSize / 2
    requires dataSize == 0 || dataSize % (2 * DetectorSize(cfg.kind)) != 0
    ensures var d1 := AfterFlush(cfg, d, h, clockTrainId);
      var r := RawData(cfg, d, h, data, dataSize, clockTrainId, time, secondElapsed);
      && r.buffer0 == d1.buffer0 && r.buffer1 == d1.buffer1
      && r.frameCount == d1.frameCount && r.lastFrameNum == d1.lastFrameNum
      && r.warnCounter == (if d.warnCounter <= MAX_WARN_PER_ACQ then d.warnCounter + 1 else d.warnCounter)
      && (d.warnCounter < MAX_WARN_PER_ACQ ==> |r.warnings| == |d.warnings| + 1)
  {
  }

  /** A packet for a buffer that already holds a whole train is dropped without a word. */
  lemma FullBufferDrops(cfg: Config, d: Device, h: Header, data: seq<Word>, dataSize: nat, clockTrainId: nat, time: int, secondElapsed: bool)
    requires cfg.Valid() && d.Ready(cfg) && |data| == dataSize / 2
    requires dataSize > 0 && dataSize % (2 * DetectorSize(cfg.kind)) == 0
    requires AfterFlush(cfg, d, h, clockTrainId).Receiving().accumulatedFrames >= cfg.framesPerTrain
    ensures RawData(cfg, d, h, data, dataSize, clockTrainId, time, secondElapsed) == AfterFlush(cfg, d, h, clockTrainId)
  {
  }

  /** A packet of n frames accepted into a buffer fills the one slot the buffer's count named
      on entry: the frame number, time stamp and (Current) bunch id land there, the pixels of
      that slot are those of the packet's last frame and no other pixel changes, and the count
      goes up by n.  The Legacy device keeps no bunch ids, and memory cells only for Jungfrau. */
  lemma AccumulatedSlot(cfg: Config, before: Buffer, data: seq<Word>, n: nat, h: Header, time: int)
    requires before.Sized(DetectorSize(cfg.kind), cfg.framesPerTrain) && before.accumulatedFrames < cfg.framesPerTrain
    requires 1 <= n && n * DetectorSize(cfg.kind) <= |data|
    ensures var size := DetectorSize(cfg.kind);
      var slot := before.accumulatedFrames;
      var after := Accumulated(cfg, before, data, n, h, time);
      && size * slot + size <= |before.adc|
      && after.lastTrainId == before.lastTrainId
      && after.accumulatedFrames == (slot + n) % USHORT_MOD
      && after.frameNumber == before.frameNumber[slot := h.frameNumber]
      && after.timestamp == before.timestamp[slot := time]
      && after.bunchId == (if cfg.generation == Current then before.bunchId[slot := h.bunchId] else before.bunchId)
      && after.memoryCell == (if StoresCell(cfg) then before.memoryCell[slot := MemoryCell(cfg.kind, h.debug)] else before.memoryCell)
      && after.adc[..size * slot] == before.adc[..size * slot]
      && after.adc[size * slot + size..] == before.adc[size * slot + size..]
      && after.adc[size * slot..size * slot + size] == AdcFrame(cfg.kind, data, n - 1)
      && after.gain[..size * slot] == before.gain[..size * slot]
      && after.gain[size * slot + size..] == before.gain[size * slot + size..]
      && after.gain[size * slot..size * slot + size] == GainFrame(cfg.kind, data, n - 1)
  {
    var size := DetectorSize(cfg.kind);
    var slot := before.accumulatedFrames;
    SlotFits(size, slot, cfg.framesPerTrain);
    SpliceSlices(before.adc, size * slot, AdcFrame(cfg.kind, data, n - 1));
    SpliceSlices(before.gain, size * slot, GainFrame(cfg.kind, data, n - 1));
  }

  /** The slices of a splice: the part before and after are kept, the middle is the insert. */
  lemma SpliceSlices(s: seq<int>, at: nat, t: seq<int>)
    requires at + |t| <= |s|
    ensures Splice(s, at, t)[..at] == s[..at]
    ensures Splice(s, at, t)[at + |t|..] == s[at + |t|..]
    ensures Splice(s, at, t)[at..at + |t|] == t
  {
    var r := Splice(s, at, t);
    assert r == s[..at] + t + s[at + |t|..];
  }

  /** An accepted packet (non-empty, whole frames, room in the buffer) goes into the receiving
      buffer as `Accumulated` says, is counted, and logs no warning. */
  lemma AcceptedPacket(cfg: Config, d: Device, h: Header, data: seq<Word>, dataSize: nat, clockTrainId: nat, time: int, secondElapsed: bool)
    requires cfg.Valid() && d.Ready(cfg) && |data| == dataSize / 2
    requires dataSize > 0 && dataSize % (2 * DetectorSize(cfg.kind)) == 0
    requires AfterFlush(cfg, d, h, clockTrainId).Receiving().accumulatedFrames < cfg.framesPerTrain
    ensures var n := dataSize / (2 * DetectorSize(cfg.kind));
      var d1 := AfterFlush(cfg, d, h, clockTrainId);
      var r := RawData(cfg, d, h, data, dataSize, clockTrainId, time, secondElapsed);
      && 1 <= n && n * DetectorSize(cfg.kind) <= |data|
      && r.Receiving() == Accumulated(cfg, d1.Receiving(), data, n, h, time)
      && r.warnCounter == d.warnCounter && r.warnings == d.warnings
      && (r.frameCount == d1.frameCount + n || r.frameCount == 0)
  {
    var size := DetectorSize(cfg.kind);
    FramesFit(size, dataSize, |data|);
    var n := dataSize / (2 * size);
    var d1 := AfterFlush(cfg, d, h, clockTrainId);
    var taken := d1.WithReceiving(Accumulated(cfg, d1.Receiving(), data, n, h, time));
    assert Taken(cfg, d1, h, data, dataSize, time, secondElapsed) == Counted(taken, n, h.frameNumber, secondElapsed);
    assert d1.warnings == d.warnings && d1.warnCounter == d.warnCounter;
  }

  /** The first packet of an acquisition is never preceded by a flush, and if it is accepted
      its frame is the first of buffer 0. */
  lemma FirstPacketAfterStart(cfg: Config, d: Device, h: Header, data: seq<Word>, dataSize: nat, clockTrainId: nat, time: int, secondElapsed: bool)
    requires cfg.Valid() && |data| == dataSize / 2
    ensures var s := Started(cfg, d);
      var r := RawData(cfg, s, h, data, dataSize, clockTrainId, time, secondElapsed);
      && r.sent == d.sent && r.index == 0
      && (dataSize > 0 && dataSize % (2 * DetectorSize(cfg.kind)) == 0 ==> r.buffer0.frameNumber[0] == h.frameNumber)
  {
    var s := Started(cfg, d);
    assert s.Receiving().accumulatedFrames == 0;
    FlushRule(cfg, s, h, data, dataSize, clockTrainId, time, secondElapsed);
    if dataSize > 0 && dataSize % (2 * DetectorSize(cfg.kind)) == 0 {
      AcceptedPacket(cfg, s, h, data, dataSize, clockTrainId, time, secondElapsed);
      var n := dataSize / (2 * DetectorSize(cfg.kind));
      AccumulatedSlot(cfg, s.Receiving(), data, n, h, time);
    }
  }

  /** The rate bookkeeping counts the frames of a packet and starts again when a second went
      by; the last frame number only ever moves up from a recorded one. */
  lemma CountedRule(d: Device, n: nat, frameNumber: nat, secondElapsed: bool)
    ensures var r := Counted(d, n, frameNumber, secondElapsed);
      && (r.frameCount == d.frameCount + n || r.frameCount == 0)
      && (r.frameCount == 0 && d.frameCount + n != 0 ==> secondElapsed && d.lastFrameNum != 0 && frameNumber > d.lastFrameNum)
      && (d.lastFrameNum != 0 ==> r.lastFrameNum >= d.lastFrameNum)
      && (d.lastFrameNum == 0 ==> r.lastFrameNum == frameNumber)
  {
  }

  // ----- the device -----

  class SlsReceiver {
    const cfg: Config
    var state: DeviceState
    var frameCount: int
    var lastFrameNum: nat
    var warnCounter: nat
    var warnings: seq<string>
    var index: nat
    const buffer0: DetectorData
    const buffer1: DetectorData
    var sent: seq<Buffer>

    ghost function Repr(): set<object>
      reads this, buffer0, buffer1
    {
      {this, buffer0, buffer1, buffer0.adc, buffer0.gain, buffer1.adc, buffer1.gain}
    }

    ghost predicate Valid()
      reads this, buffer0, buffer1
    {
      && cfg.Valid() && index < 2
      && buffer0 != buffer1 && buffer0.Valid() && buffer1.Valid()
      && buffer0.adc != buffer1.adc && buffer0.adc != buffer1.gain
      && buffer0.gain != buffer1.adc && buffer0.gain != buffer1.gain
    }

    function View(): Device
      reads this, buffer0, buffer1, buffer0.adc, buffer0.gain, buffer1.adc, buffer1.gain
    {
      Device(state, frameCount, lastFrameNum, warnCounter, warnings, index, buffer0.Contents(), buffer1.Contents(), sent)
    }

    /** The device as constructed: no receiver yet, counters at 0, empty buffers. */
    constructor(cfg: Config)
      requires cfg.Valid()
      ensures Valid() && this.cfg == cfg
      ensures View() == Device(Unknown, 0, 0, 0, [], 0, Buffer(0, 0, [], [], [], [], [], []), Buffer(0, 0, [], [], [], [], [], []), [])
    {
      this.cfg := cfg;
      state := Unknown;
      frameCount := 0;
      lastFrameNum := 0;
      warnCounter := 0;
      warnings := [];
      index := 0;
      sent := [];
      buffer0 := new DetectorData();
      buffer1 := new DetectorData();
    }

    /** `initialize()`: the receiver's argv and the port it reports; the state becomes PASSIVE
        when the receiver could be created (and, Legacy, started), ERROR otherwise. */
    method Initialize(config: seq<(string, string)>, created: bool) returns (argv: seq<string>, port: string)
      requires Valid()
      modifies this
      ensures Valid() && argv == Argv(config) && port == PortValue(config, DEFAULT_PORT)
      ensures View() == old(View()).(state := if created then Passive else Failed)
    {
      argv, port := ReceiverArgv(config);
      state := if created then Passive else Failed;
    }

    /** `startAcquisitionCallBack`. */
    method StartAcquisition()
      requires Valid()
      modifies Repr()
      ensures Valid() && View() == Started(cfg, old(View()))
    {
      var size := DetectorSize(cfg.kind);
      frameCount := 0;
      state := Acquiring;
      lastFrameNum := 0;
      warnCounter := 0;
      Prepare(buffer0, size, cfg.framesPerTrain);
      Prepare(buffer1, size, cfg.framesPerTrain);
      index := 0;
    }

    /** `acquisitionFinishedCallBack`: the device is PASSIVE again (the rates it publishes are
        not modelled). */
    method AcquisitionFinished()
      requires Valid()
      modifies this
      ensures Valid() && View() == old(View()).(state := Passive)
    {
      state := Passive;
    }

    method LogWarning(message: string)
      requires Valid()
      modifies this
      ensures Valid() && View() == Warn(old(View()), message)
    {
      if warnCounter < MAX_WARN_PER_ACQ {
        warnings := warnings + [message];
        warnCounter := warnCounter + 1;
      } else if warnCounter == MAX_WARN_PER_ACQ {
        warnings := warnings + [NO_MORE_MESSAGES];
        warnCounter := warnCounter + 1;
      }
    }

    /** The flush: the receiving buffer is written out and reset, the other one receives. */
    method Flush(trainId: nat)
      requires Valid()
      modifies Repr()
      ensures Valid() && Repr() == old(Repr()) && View() == Flushed(old(View()), trainId)
    {
      var out := if index == 0 then buffer0 else buffer1;
      sent := sent + [out.Contents()];
      out.Reset();
      index := (index + 1) % 2;
      var next := if index == 0 then buffer0 else buffer1;
      next.ResetTimestamp(trainId);
    }

    /** The frames of an accepted packet go into the receiving buffer. */
    method Accumulate(h: Header, data: seq<Word>, n: nat, time: int)
      requires Valid() && View().Ready(cfg) && View().Receiving().accumulatedFrames < cfg.framesPerTrain
      requires 1 <= n && n * DetectorSize(cfg.kind) <= |data|
      modifies Repr()
      ensures Valid() && Repr() == old(Repr())
      ensures View() == old(View()).WithReceiving(Accumulated(cfg, old(View()).Receiving(), data, n, h, time))
    {
      var b := if index == 0 then buffer0 else buffer1;
      AccumulateInto(cfg, b, data, n, h, time);
    }

    /** The flush decision of `rawDataReadyCallBack`. */
    method FlushIfDue(h: Header, clockTrainId: nat)
      requires Valid() && View().Ready(cfg)
      modifies Repr()
      ensures Valid() && Repr() == old(Repr()) && View() == AfterFlush(cfg, old(View()), h, clockTrainId)
    {
      var trainId := TrainIdOf(cfg.generation, h.bunchId, clockTrainId);
      var b := if index == 0 then buffer0 else buffer1;
      if FlushDue(cfg, b.Contents(), trainId, MemoryCell(cfg.kind, h.debug)) {
        Flush(trainId);
      }
    }

    /** The rate bookkeeping of `rawDataReadyCallBack`. */
    method Count(n: nat, frameNumber: nat, secondElapsed: bool)
      requires Valid()
      modifies this
      ensures Valid() && View() == Counted(old(View()), n, frameNumber, secondElapsed)
    {
      frameCount := frameCount + n;
      if lastFrameNum == 0 {
        lastFrameNum := frameNumber;
      } else if secondElapsed && frameNumber > lastFrameNum {
        frameCount := 0;
        lastFrameNum := frameNumber;
      }
    }

    /** The rest of `rawDataReadyCallBack`: the checks of the packet, the frames and the rate. */
    method Take(h: Header, data: seq<Word>, dataSize: nat, time: int, secondElapsed: bool)
      requires Valid() && View().Ready(cfg) && |data| == dataSize / 2
      modifies Repr()
      ensures Valid() && Repr() == old(Repr())
      ensures View() == Taken(cfg, old(View()), h, data, dataSize, time, secondElapsed)
    {
      var frameSize := 2 * DetectorSize(cfg.kind);
      if dataSize == 0 {
        LogWarning(EMPTY_BUFFER);
        return;
      } else if dataSize % frameSize != 0 {
        assert Taken(cfg, View(), h, data, dataSize, time, secondElapsed) == Warn(View(), Misaligned(dataSize, frameSize));
        LogWarning(Misaligned(dataSize, frameSize));
        return;
      }
      var b := if index == 0 then buffer0 else buffer1;
      if b.accumulatedFrames >= cfg.framesPerTrain {
        return;
      }
      var n := dataSize / frameSize;
      FramesFit(DetectorSize(cfg.kind), dataSize, |data|);
      Accumulate(h, data, n, time);
      Count(n, h.frameNumber, secondElapsed);
    }

    /** `rawDataReadyCallBack(header, data, dataSize)`. */
    method RawDataReady(h: Header, data: seq<Word>, dataSize: nat, clockTrainId: nat, time: int, secondElapsed: bool)
      requires Valid() && View().Ready(cfg) && |data| == dataSize / 2
      modifies Repr()
      ensures Valid() && Repr() == old(Repr()) && View().Ready(cfg)
      ensures View() == RawData(cfg, old(View()), h, data, dataSize, clockTrainId, time, secondElapsed)
    {
      FlushIfDue(h, clockTrainId);
      Take(h, data, dataSize, time, secondElapsed);
    }
  }

  /** `resize` followed by `reset`: fresh arrays for a train, and an empty buffer that keeps
      its train stamp. */
  method Prepare(b: DetectorData, detectorSize: nat, framesPerTrain: nat)
    requires b.Valid()
    modifies b
    ensures b.Valid() && fresh(b.adc) && fresh(b.gain)
    ensures b.Contents() == Empty(old(b.lastTrainId), detectorSize, framesPerTrain)
  {
    b.Resize(detectorSize, framesPerTrain);
    ghost var resized := b.Contents();
    b.Reset();
    ClearedIsEmpty(resized, detectorSize, framesPerTrain);
  }

  /** One frame written to `slot` of a buffer, counted. */
  method StoreFrame(cfg: Config, b: DetectorData, data: seq<Word>, idx: nat, slot: nat, h: Header, time: int)
    requires b.Valid() && b.Contents().Sized(DetectorSize(cfg.kind), cfg.framesPerTrain) && slot < cfg.framesPerTrain
    requires (idx + 1) * DetectorSize(cfg.kind) <= |data|
    modifies b, b.adc, b.gain
    ensures b.Valid() && b.adc == old(b.adc) && b.gain == old(b.gain)
    ensures b.Contents()
      == WriteSlot(cfg, old(b.Contents()), data, idx, slot, h, time).(accumulatedFrames := (old(b.accumulatedFrames) + 1) % USHORT_MOD)
  {
    var size := DetectorSize(cfg.kind);
    SlotFits(size, slot, cfg.framesPerTrain);
    UnpackRawData(cfg.kind, data, idx, b.adc, b.gain, size * slot);
    if StoresCell(cfg) {
      b.memoryCell := b.memoryCell[slot := MemoryCell(cfg.kind, h.debug)];
    }
    b.frameNumber := b.frameNumber[slot := h.frameNumber];
    if cfg.generation == Current {
      b.bunchId := b.bunchId[slot := h.bunchId];
    }
    b.timestamp := b.timestamp[slot := time];
    b.accumulatedFrames := (b.accumulatedFrames + 1) % USHORT_MOD;
  }

  /** The loop of `rawDataReadyCallBack` over the frames of an accepted packet: every frame is
      unpacked at the slot the buffer's count showed on entry, and the count goes up by one per
      frame. */
  method AccumulateInto(cfg: Config, b: DetectorData, data: seq<Word>, n: nat, h: Header, time: int)
    requires b.Valid() && b.Contents().Sized(DetectorSize(cfg.kind), cfg.framesPerTrain)
    requires b.accumulatedFrames < cfg.framesPerTrain
    requires 1 <= n && n * DetectorSize(cfg.kind) <= |data|
    modifies b, b.adc, b.gain
    ensures b.Valid() && b.adc == old(b.adc) && b.gain == old(b.gain)
    ensures b.Contents() == Accumulated(cfg, old(b.Contents()), data, n, h, time)
  {
    ghost var start := b.Contents();
    var size := DetectorSize(cfg.kind);
    var slot := b.accumulatedFrames;
    for i := 0 to n
      invariant i * size <= |data|
      invariant b.Valid() && b.adc == old(b.adc) && b.gain == old(b.gain)
      invariant b.Contents().Sized(size, cfg.framesPerTrain)
      invariant i == 0 ==> b.Contents() == start
      invariant i > 0 ==> b.Contents() == Accumulated(cfg, start, data, i, h, time)
    {
      FrameWithin(i, n, size);
      StoreFrame(cfg, b, data, i, slot, h, time);
      SlotStep(cfg, start, data, i, h, time);
    }
  }

  lemma FrameWithin(i: nat, n: nat, size: nat)
    requires i < n
    ensures (i + 1) * size <= n * size
  {
    SlotFits(size, i, n);
  }

  lemma ModStep(x: nat)
    ensures (x % USHORT_MOD + 1) % USHORT_MOD == (x + 1) % USHORT_MOD
  {
  }

  /** One more frame of the same packet overwrites the slot and counts one more. */
  lemma SlotStep(cfg: Config, start: Buffer, data: seq<Word>, i: nat, h: Header, time: int)
    requires start.Sized(DetectorSize(cfg.kind), cfg.framesPerTrain) && start.accumulatedFrames < cfg.framesPerTrain
    requires (i + 1) * DetectorSize(cfg.kind) <= |data|
    ensures var before := if i == 0 then start else Accumulated(cfg, start, data, i, h, time);
      WriteSlot(cfg, before, data, i, start.accumulatedFrames, h, time).(accumulatedFrames := (before.accumulatedFrames + 1) % USHORT_MOD)
        == Accumulated(cfg, start, data, i + 1, h, time)
  {
    var size := DetectorSize(cfg.kind);
    var slot := start.accumulatedFrames;
    SlotFits(size, slot, cfg.framesPerTrain);
    if i > 0 {
      FrameWithin(i - 1, i, size);
      SpliceTwice(start.adc, size * slot, AdcFrame(cfg.kind, data, i - 1), AdcFrame(cfg.kind, data, i));
      SpliceTwice(start.gain, size * slot, GainFrame(cfg.kind, data, i - 1), GainFrame(cfg.kind, data, i));
      ModStep(start.accumulatedFrames + i);
    }
  }

  // ----- the receiver's argv -----

  const DEFAULT_PORT: string := "1954"
  const PORT_ALIAS: string := "--rx_tcpport"

  /** "ignored", then alias and value of each "sls"-tagged parameter in order. */
  function Argv(config: seq<(string, string)>): (r: seq<string>)
    ensures |r| == 1 + 2 * |config|
    decreases |config|
  {
    if config == [] then ["ignored"]
    else Argv(config[..|config| - 1]) + [config[|config| - 1].0, config[|config| - 1].1]
  }

  /** The value of the last "--rx_tcpport" parameter, or `port` when there is none. */
  function PortValue(config: seq<(string, string)>, port: string): string
    decreases |config|
  {
    if config == [] then port
    else if config[|config| - 1].0 == PORT_ALIAS then config[|config| - 1].1
    else PortValue(config[..|config| - 1], port)
  }

  /** The loop of `initialize()` that builds the receiver's argv. */
  method ReceiverArgv(config: seq<(string, string)>) returns (argv: seq<string>, port: string)
    ensures argv == Argv(config) && port == PortValue(config, DEFAULT_PORT)
  {
    port := DEFAULT_PORT;
    argv := ["ignored"];
    for i := 0 to |config|
      invariant argv == Argv(config[..i]) && port == PortValue(config[..i], DEFAULT_PORT)
    {
      assert config[..i + 1][..i] == config[..i];
      var (alias, value) := config[i];
      if alias == PORT_ALIAS {
        port := value;
      }
      argv := argv + [alias, value];
    }
    assert config[..|config|] == config;
  }

  /** Argv entries the receiver's scan does not take for a port flag. */
  predicate PlainArguments(config: seq<(string, string)>) {
    forall i | 0 <= i < |config| ::
      !SimReceiver.IsPortFlag(config[i].1) && config[i].0 != "-t"
      && (config[i].0 == PORT_ALIAS ==> StoI(config[i].1).Some?)
  }

  /** The argv the device builds is read by the receiver's argv scan as the device reads it:
      the receiver listens on the last "--rx_tcpport" value, or on its default 1954 without
      one, provided no value looks like a port flag, no alias is "-t" and every port value is a
      number. */
  lemma {:induction false} ArgvPort(config: seq<(string, string)>)
    requires PlainArguments(config)
    ensures SimReceiver.Complete(Argv(config))
    ensures HasPort(config) ==> StoI(PortValue(config, DEFAULT_PORT)).Some?
    ensures SimReceiver.ScanPort(Argv(config), SimDefs.SLS_RX_DEFAULT_PORT)
      == Ok(if HasPort(config) then StoI(PortValue(config, DEFAULT_PORT)).value else SimDefs.SLS_RX_DEFAULT_PORT)
    decreases |config|
  {
    if config == [] {
      assert !SimReceiver.IsPortFlag("ignored");
      assert Argv(config)[1..] == [];
    } else {
      var front := config[..|config| - 1];
      var (alias, value) := config[|config| - 1];
      assert PlainArguments(front) by {
        forall i | 0 <= i < |front|
          ensures !SimReceiver.IsPortFlag(front[i].1) && front[i].0 != "-t"
            && (front[i].0 == PORT_ALIAS ==> StoI(front[i].1).Some?)
        {
          assert front[i] == config[i];
        }
      }
      ArgvPort(front);
      var a := Argv(front);
      assert Argv(config) == a + [alias, value];
      assert [alias, value][1..] == [value] && [value][1..] == [] && [alias, value][2..] == [];
      CompleteAppend(a, [alias, value]);
      SimReceiver.ScanPortAppend(a, [alias, value], SimDefs.SLS_RX_DEFAULT_PORT);
      var q := SimReceiver.ScanPort(a, SimDefs.SLS_RX_DEFAULT_PORT).value;
      if alias != PORT_ALIAS {
        assert !SimReceiver.IsPortFlag(alias);
        assert SimReceiver.ScanPort([alias, value], q) == SimReceiver.ScanPort([value], q) == Ok(q);
        assert PortValue(config, DEFAULT_PORT) == PortValue(front, DEFAULT_PORT);
        assert HasPort(config) == HasPort(front) by {
          if HasPort(front) {
            var i :| 0 <= i < |front| && front[i].0 == PORT_ALIAS;
            assert config[i] == front[i];
          }
          if HasPort(config) {
            var i :| 0 <= i < |config| && config[i].0 == PORT_ALIAS;
            assert front[i] == config[i];
          }
        }
      } else {
        assert config[|config| - 1].0 == PORT_ALIAS;
      }
    }
  }

  /** Whether some parameter carries the port alias. */
  predicate HasPort(config: seq<(string, string)>) {
    exists i | 0 <= i < |config| :: config[i].0 == PORT_ALIAS
  }

  /** Two argument lists the scan reads to their ends, one after the other, are read to the
      end too. */
  lemma {:induction false} CompleteAppend(a: seq<string>, b: seq<string>)
    requires SimReceiver.Complete(a) && SimReceiver.Complete(b)
    ensures SimReceiver.Complete(a + b)
    decreases |a|
  {
    if a == [] {
      assert a + b == b;
    } else {
      assert (a + b)[0] == a[0];
      if SimReceiver.IsPortFlag(a[0]) {
        assert (a + b)[2..] == a[2..] + b;
        CompleteAppend(a[2..], b);
      } else {
        assert (a + b)[1..] == a[1..] + b;
        CompleteAppend(a[1..], b);
      }
    }
  }
}
