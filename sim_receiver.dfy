/** The simulated receiver `sls::Receiver`: it takes the port from its command line, reads
    ';'-terminated commands from a TCP session and hands one simulated frame after another to
    the data callback while an acquisition runs, writing them to raw files of at most
    MAX_FRAMES_PER_FILE frames when file writing is on.  The sample buffer holds two samples of
    the detector's channels; `setGain` refills it from the baseline/noise table. */
module SimReceiver {
  import opened Wrappers
  import opened Text
  import opened SimDefs
  import opened RawFiles
  import opened PixelWords

  // ----- the tables -----

  /** `slsDetectorDefs::channels[t]`: Gotthard 1280, Jungfrau 1024 x 512, anything else 0
      (`operator[]` adds a 0 entry for a type the table does not know). */
  function Channels(detectorType: int): (n: nat)
    ensures n > 0 <==> detectorType == Gotthard.Code() || detectorType == Jungfrau.Code()
  {
    if detectorType == Gotthard.Code() then 1280
    else if detectorType == Jungfrau.Code() then 1024 * 512
    else 0
  }

  /** The generic table: only UNINITIALIZED, baseline 81 and noise 12. */
  function GenericLevel(gain: int): Option<Level> {
    if gain == Uninitialized.Code() then Some(Level(81, 12)) else None
  }

  /** The Gotthard table: UNINITIALIZED and HIGHGAIN share the high-gain level. */
  function GotthardLevel(gain: int): Option<Level> {
    if gain == Uninitialized.Code() || gain == HighGain.Code() then Some(Level(4781, 156))
    else if gain == LowGain.Code() then Some(Level(1962, 113))
    else if gain == MediumGain.Code() then Some(Level(2676, 79))
    else if gain == VeryHighGain.Code() then Some(Level(5431, 187))
    else None
  }

  /** `baseline_noise[t]`, the generic table standing in for a type without one. */
  function LevelFor(detectorType: int, gain: int): Option<Level> {
    if detectorType == Gotthard.Code() then GotthardLevel(gain) else GenericLevel(gain)
  }

  /** The gain `setGain` ends up with, and its level: the gain itself when the table of the
      type has it, UNINITIALIZED otherwise. */
  function GainLevel(detectorType: int, gain: int): (r: (int, Level))
    ensures r.0 == gain || r.0 == Uninitialized.Code()
    ensures LevelFor(detectorType, r.0) == Some(r.1) && r.1.Valid()
    ensures LevelFor(detectorType, gain).Some? ==> r.0 == gain
  {
    match LevelFor(detectorType, gain)
    case Some(l) => (gain, l)
    case None => (Uninitialized.Code(), LevelFor(detectorType, Uninitialized.Code()).value)
  }

  /** Looking up the gain that was looked up changes nothing; every type but Gotthard falls
      back to UNINITIALIZED with the generic level. */
  lemma GainLevelStable(detectorType: int, gain: int)
    ensures GainLevel(detectorType, GainLevel(detectorType, gain).0) == GainLevel(detectorType, gain)
    ensures detectorType != Gotthard.Code() ==> GainLevel(detectorType, gain) == (Uninitialized.Code(), Level(81, 12))
    ensures detectorType == Gotthard.Code() && gain in {2, 4, 5, 6, 201} ==> GainLevel(detectorType, gain).0 == gain
  {
  }

  // ----- the command line -----

  predicate IsPortFlag(arg: string) {
    arg == "--rx_tcpport" || arg == "-t"
  }

  /** The constructor's scan of argv: every "--rx_tcpport" or "-t" takes the next argument as
      the port (std::stoi, which may throw) and skips it; a flag at the very end is ignored. */
  function ScanPort(args: seq<string>, port: int): Result<int>
    decreases |args|
  {
    if args == [] then Ok(port)
    else if IsPortFlag(args[0]) then
      if |args| == 1 then Ok(port)
      else match StoI(args[1])
        case None => Err("stoi")
        case Some(p) => ScanPort(args[2..], p)
    else ScanPort(args[1..], port)
  }

  /** An argument list the scan reads to its end without a flag that still waits for its
      value. */
  predicate Complete(args: seq<string>)
    decreases |args|
  {
    if args == [] then true
    else if IsPortFlag(args[0]) then |args| >= 2 && Complete(args[2..])
    else Complete(args[1..])
  }

  /** The scan of `Receiver(argc, argv)`, loop by loop. */
  method PortFromArgv(argv: seq<string>) returns (r: Result<int>)
    ensures r == ScanPort(argv, SLS_RX_DEFAULT_PORT)
  {
    var port := SLS_RX_DEFAULT_PORT;
    var i := 0;
    while i < |argv|
      invariant 0 <= i <= |argv|
      invariant ScanPort(argv[i..], port) == ScanPort(argv, SLS_RX_DEFAULT_PORT)
      decreases |argv| - i
    {
      assert argv[i..][0] == argv[i];
      if IsPortFlag(argv[i]) {
        if i + 1 < |argv| {
          assert argv[i..][1] == argv[i + 1] && argv[i..][2..] == argv[i + 2..];
          var p := StoI(argv[i + 1]);
          if p.None? {
            return Err("stoi");
          }
          port := p.value;
        } else {
          assert argv[i..] == [argv[i]];
        }
        i := i + 2;
      } else {
        assert argv[i..][1..] == argv[i + 1..];
        i := i + 1;
      }
      if i > |argv| {
        i := |argv|;
      }
    }
    assert argv[i..] == [];
    r := Ok(port);
  }

  /** No flag, no change: the default port stays. */
  lemma {:induction false} ScanPortWithoutFlag(args: seq<string>, port: int)
    requires forall i | 0 <= i < |args| :: !IsPortFlag(args[i])
    ensures ScanPort(args, port) == Ok(port)
    decreases |args|
  {
    if args != [] {
      ScanPortWithoutFlag(args[1..], port);
    }
  }

  /** Scanning a complete list and then more is scanning the rest from where the first part
      left the port. */
  lemma {:induction false} ScanPortAppend(a: seq<string>, b: seq<string>, port: int)
    requires Complete(a) && ScanPort(a, port).Ok?
    ensures ScanPort(a + b, port) == ScanPort(b, ScanPort(a, port).value)
    decreases |a|
  {
    if a != [] {
      if IsPortFlag(a[0]) {
        assert (a + b)[2..] == a[2..] + b;
        assert (a + b)[1] == a[1];
        ScanPortAppend(a[2..], b, StoI(a[1]).value);
      } else {
        assert (a + b)[1..] == a[1..] + b;
        ScanPortAppend(a[1..], b, port);
      }
    } else {
      assert a + b == b;
    }
  }

  /** The last flag wins, and a flag left without its value is ignored. */
  lemma LastPortWins(a: seq<string>, flag: string, p: int)
    requires Complete(a) && ScanPort(a, SLS_RX_DEFAULT_PORT).Ok? && IsPortFlag(flag) && IsInt32(p)
    ensures ScanPort(a + [flag, IntToString(p)], SLS_RX_DEFAULT_PORT) == Ok(p)
    ensures ScanPort(a + [flag], SLS_RX_DEFAULT_PORT) == ScanPort(a, SLS_RX_DEFAULT_PORT)
  {
    var q := ScanPort(a, SLS_RX_DEFAULT_PORT).value;
    ScanPortAppend(a, [flag, IntToString(p)], SLS_RX_DEFAULT_PORT);
    ScanPortAppend(a, [flag], SLS_RX_DEFAULT_PORT);
    StoIRoundTrip(p);
    assert [flag, IntToString(p)][2..] == [];
  }

  /** `Receiver(port)` hands the constructor ("ignored", "--rx_tcpport", port). */
  lemma PortConstructorArgv(p: int)
    requires IsInt32(p)
    ensures ScanPort(["ignored", "--rx_tcpport", IntToString(p)], SLS_RX_DEFAULT_PORT) == Ok(p)
  {
    assert Complete(["ignored"]);
    assert ScanPort(["ignored"], SLS_RX_DEFAULT_PORT) == Ok(SLS_RX_DEFAULT_PORT);
    LastPortWins(["ignored"], "--rx_tcpport", p);
    assert ["ignored"] + ["--rx_tcpport", IntToString(p)] == ["ignored", "--rx_tcpport", IntToString(p)];
  }

  // ----- the state -----

  /** Where and whether frames are written. */
  datatype Output = Output(filePath: string, fileName: string, fileIndex: nat, writeToFile: bool)

  /** The frame counters: every frame handed out, and the frame numbers of the acquisition and
      of the first frame of the current file. */
  datatype Frames = Frames(frameCounter: nat, currAcqFrameCounter: nat, currFileFirstFrame: nat) {
    /** The current frame belongs to the current file, and file boundaries fall on multiples of
        MAX_FRAMES_PER_FILE. */
    predicate Valid() {
      && currFileFirstFrame <= currAcqFrameCounter < currFileFirstFrame + MAX_FRAMES_PER_FILE
      && currFileFirstFrame % MAX_FRAMES_PER_FILE == 0
    }
  }

  /** The files opened so far, in order, and whether one is open. */
  datatype FileLog = FileLog(created: seq<RawFile>, isOpen: bool)

  /** Which of the three callbacks are registered (non-NULL). */
  datatype Callbacks = Callbacks(start: bool, finished: bool, rawData: bool)

  datatype ReceiverState = ReceiverState(
    started: bool, detectorType: int, settings: int, rxTcpPort: int,
    output: Output, frames: Frames, files: FileLog, callbacks: Callbacks)
  {
    predicate Valid() {
      frames.Valid()
    }
  }

  /** The members the constructor sets; write-to-file and the acquisition counters, which it
      leaves uninitialised, start off and at 0. */
  function Initial(port: int): (s: ReceiverState)
    ensures s.Valid() && !s.started && s.rxTcpPort == port
  {
    ReceiverState(false, Generic.Code(), Uninitialized.Code(), port,
      Output("/tmp", "run", 0, false), Frames(0, 0, 0), FileLog([], false),
      Callbacks(false, false, false))
  }

  /** The file that holds the current frame. */
  function CurrentFile(o: Output, f: Frames): RawFile {
    RawFile(o.filePath, o.fileName, f.currFileFirstFrame, o.fileIndex)
  }

  /** "start": ignored while started or for a type without channels; with a start callback and
      file writing on, the counters restart and the first file is opened. */
  function Start(s: ReceiverState): (r: ReceiverState)
    requires s.Valid()
    ensures r.Valid()
  {
    if s.started || Channels(s.detectorType) == 0 then s
    else if s.callbacks.start && s.output.writeToFile then
      var t := s.(frames := s.frames.(currAcqFrameCounter := 0, currFileFirstFrame := 0));
      t.(files := FileLog(t.files.created + [CurrentFile(t.output, t.frames)], true), started := true)
    else s.(started := true)
  }

  /** "stop": ignored unless started; with a finish callback and file writing on, the file is
      closed. */
  function Stop(s: ReceiverState): (r: ReceiverState)
    requires s.Valid()
    ensures r.Valid() && !r.started
  {
    if !s.started then s
    else if s.callbacks.finished && s.output.writeToFile then
      s.(files := s.files.(isOpen := false), started := false)
    else s.(started := false)
  }

  /** One turn of the data thread's loop: the next frame number; with file writing on, the
      frame is counted for the acquisition and a new file is opened once MAX_FRAMES_PER_FILE
      frames lie between it and the first frame of the current file. */
  function FrameStep(s: ReceiverState): (r: ReceiverState)
    requires s.Valid()
    ensures r.Valid()
  {
    if !s.started then s
    else
      var f := s.frames.(frameCounter := s.frames.frameCounter + 1);
      if !s.output.writeToFile then s.(frames := f)
      else
        var acq := f.currAcqFrameCounter + 1;
        if acq - f.currFileFirstFrame >= MAX_FRAMES_PER_FILE then
          var t := s.(frames := f.(currAcqFrameCounter := acq, currFileFirstFrame := acq));
          t.(files := FileLog(t.files.created + [CurrentFile(t.output, t.frames)], true))
        else s.(frames := f.(currAcqFrameCounter := acq))
  }

  /** `setGain(g)` on the scalar members: nothing when g is the current setting, otherwise the
      looked-up gain becomes the setting. */
  function SetGainState(s: ReceiverState, gain: int): (r: ReceiverState)
    ensures r == s.(settings := r.settings)
  {
    if gain == s.settings then s else s.(settings := GainLevel(s.detectorType, gain).0)
  }

  const UINT64_MOD: int := 0x1_0000_0000_0000_0000

  /** `processCommand(command)` on the scalar members, for the command split at white space.
      `Err` is an exception from std::stoi; it leaves the receiver as it was. */
  function Command(s: ReceiverState, v: seq<string>): (r: (ReceiverState, Result<()>))
    requires s.Valid() && |v| >= 1
    ensures r.0.Valid()
  {
    var cmd := v[0];
    if cmd == "start" then (Start(s), Ok(()))
    else if cmd == "stop" then (Stop(s), Ok(()))
    else if |v| != 2 then (s, Ok(()))
    else if cmd == "fpath" then (s.(output := s.output.(filePath := v[1])), Ok(()))
    else if cmd == "fname" then (s.(output := s.output.(fileName := v[1])), Ok(()))
    else if cmd in {"detectortype", "findex", "fwrite", "settings"} then
      match StoI(v[1])
      case None => (s, Err("stoi"))
      case Some(n) =>
        if cmd == "detectortype" then (SetGainState(s.(detectorType := n), s.settings), Ok(()))
        else if cmd == "findex" then (s.(output := s.output.(fileIndex := n % UINT64_MOD)), Ok(()))
        else if cmd == "fwrite" then (s.(output := s.output.(writeToFile := n != 0)), Ok(()))
        else (SetGainState(s, n), Ok(()))
    else (s, Ok(()))
  }

  /** The gain and level the buffer is refilled with by a command, if it is. */
  function Refill(s: ReceiverState, v: seq<string>): Option<(int, Level)>
    requires |v| >= 1
  {
    if v[0] == "settings" && |v| == 2 && StoI(v[1]).Some? && StoI(v[1]).value != s.settings
    then Some(GainLevel(s.detectorType, StoI(v[1]).value))
    else None
  }

  /** Whether a command gives the receiver a new detector type, and so a new buffer. */
  predicate Reallocates(s: ReceiverState, v: seq<string>)
    requires |v| >= 1
  {
    v[0] == "detectortype" && |v| == 2 && StoI(v[1]).Some? && StoI(v[1]).value != s.detectorType
  }

  // ----- the object -----

  class Receiver {
    var started: bool
    var detectorType: int
    var settings: int
    var rxTcpPort: int
    var output: Output
    var frames: Frames
    var files: FileLog
    var callbacks: Callbacks
    /** `m_data`: two samples of every channel, as 16-bit words. */
    var data: array<Word>

    function State(): ReceiverState
      reads this
    {
      ReceiverState(started, detectorType, settings, rxTcpPort, output, frames, files, callbacks)
    }

    predicate Valid()
      reads this
    {
      State().Valid() && data.Length == 2 * Channels(detectorType)
    }

    /** `Receiver(argc, argv)` once `PortFromArgv` has read the port: no buffer yet (a
        generic detector has no channels). */
    constructor (port: int)
      ensures Valid() && State() == Initial(port) && fresh(data)
    {
      var s := Initial(port);
      started := s.started;
      detectorType := s.detectorType;
      settings := s.settings;
      rxTcpPort := s.rxTcpPort;
      output := s.output;
      frames := s.frames;
      files := s.files;
      callbacks := s.callbacks;
      data := new Word[0];
    }

    method RegisterCallBackStartAcquisition(given: bool)
      modifies this
      ensures State() == old(State()).(callbacks := old(callbacks).(start := given))
      ensures data == old(data)
    {
      callbacks := callbacks.(start := given);
    }

    method RegisterCallBackAcquisitionFinished(given: bool)
      modifies this
      ensures State() == old(State()).(callbacks := old(callbacks).(finished := given))
      ensures data == old(data)
    {
      callbacks := callbacks.(finished := given);
    }

    method RegisterCallBackRawDataReady(given: bool)
      modifies this
      ensures State() == old(State()).(callbacks := old(callbacks).(rawData := given))
      ensures data == old(data)
    {
      callbacks := callbacks.(rawData := given);
    }

    /** `setGain(g)`: refills the whole buffer with samples at the looked-up level, the
        looked-up gain packed into their top bits; `rnd` stands for the draws of rand(). */
    method SetGain(gain: int, rnd: nat -> nat)
      requires Valid()
      modifies this, data
      ensures Valid() && State() == SetGainState(old(State()), gain) && data == old(data)
      ensures gain == old(settings) ==> data[..] == old(data[..])
      ensures gain != old(settings) ==>
        var e := GainLevel(detectorType, gain);
        data[..] == Samples(data.Length, e.0, e.1, rnd)
    {
      if gain == settings {
        return;
      }
      var e := GainLevel(detectorType, gain);
      FillSamples(data, 2 * Channels(detectorType), e.0, e.1, rnd);
      assert data[..] == data[..data.Length];
      settings := e.0;
    }

    /** "detectortype t": a buffer for the new type's channels when t differs, then
        `setGain(m_settings)`, which finds nothing to do. */
    method SetDetectorType(t: int, rnd: nat -> nat)
      requires Valid()
      modifies this, data
      ensures Valid() && State() == SetGainState(old(State()).(detectorType := t), old(settings))
      ensures t != old(detectorType) ==> fresh(data)
      ensures t == old(detectorType) ==> data == old(data) && data[..] == old(data[..])
    {
      if t != detectorType {
        data := new Word[2 * Channels(t)];
        detectorType := t;
      }
      SetGain(settings, rnd);
    }

    /** Takes over scalar members computed by `Command`. */
    method Load(s: ReceiverState)
      modifies this
      ensures State() == s && data == old(data)
    {
      started := s.started;
      detectorType := s.detectorType;
      settings := s.settings;
      rxTcpPort := s.rxTcpPort;
      output := s.output;
      frames := s.frames;
      files := s.files;
      callbacks := s.callbacks;
    }

    /** `processCommand(command)`: the scalar members follow `Command`; the buffer is replaced
        on a change of type and refilled on a change of setting. */
    method ProcessCommand(command: string, rnd: nat -> nat) returns (r: Result<()>)
      requires Valid()
      modifies this, data
      ensures Valid()
      ensures (State(), r) == Command(old(State()), Split(command, IsSpace))
      ensures Reallocates(old(State()), Split(command, IsSpace)) ==> fresh(data)
      ensures !Reallocates(old(State()), Split(command, IsSpace)) ==> data == old(data)
      ensures match Refill(old(State()), Split(command, IsSpace))
        case Some(e) => data[..] == Samples(data.Length, e.0, e.1, rnd)
        case None => !Reallocates(old(State()), Split(command, IsSpace)) ==> data[..] == old(data[..])
    {
      var v := Split(command, IsSpace);
      var s := State();
      if v[0] == "detectortype" && |v| == 2 && StoI(v[1]).Some? {
        DetectorTypeCommand(s, v, StoI(v[1]).value);
        SetDetectorType(StoI(v[1]).value, rnd);
        r := Ok(());
      } else if v[0] == "settings" && |v| == 2 && StoI(v[1]).Some? {
        SettingsCommand(s, v, StoI(v[1]).value);
        SetGain(StoI(v[1]).value, rnd);
        r := Ok(());
      } else {
        OtherCommand(s, v);
        var next := Command(s, v);
        Load(next.0);
        r := next.1;
      }
    }

    /** One turn of the data thread while the acquisition runs. */
    method DataStep()
      requires Valid()
      modifies this
      ensures Valid() && State() == FrameStep(old(State())) && data == old(data)
    {
      if !started {
        return;
      }
      frames := frames.(frameCounter := frames.frameCounter + 1);
      if output.writeToFile {
        frames := frames.(currAcqFrameCounter := frames.currAcqFrameCounter + 1);
        if frames.currAcqFrameCounter - frames.currFileFirstFrame >= MAX_FRAMES_PER_FILE {
          frames := frames.(currFileFirstFrame := frames.currAcqFrameCounter);
          files := FileLog(files.created + [CurrentFile(output, frames)], true);
        }
      }
    }
  }

  // ----- what the commands promise -----

  /** "start" while started, or for a type without channels, changes nothing; otherwise the
      receiver is started and a second "start" changes nothing. */
  lemma StartOnce(s: ReceiverState, v: seq<string>)
    requires s.Valid() && |v| >= 1 && v[0] == "start"
    ensures s.started || Channels(s.detectorType) == 0 ==> Command(s, v) == (s, Ok(()))
    ensures !s.started && Channels(s.detectorType) > 0 ==> Command(s, v).0.started
    ensures Command(Command(s, v).0, v) == Command(s, v)
  {
  }

  /** "stop" leaves the receiver stopped, changes nothing when it is not started, and a
      second "stop" changes nothing. */
  lemma StopOnce(s: ReceiverState, v: seq<string>)
    requires s.Valid() && |v| >= 1 && v[0] == "stop"
    ensures !Command(s, v).0.started
    ensures !s.started ==> Command(s, v) == (s, Ok(()))
    ensures Command(Command(s, v).0, v) == Command(s, v)
  {
  }

  /** Every command but "start" and "stop" needs exactly one argument. */
  lemma OneArgumentOnly(s: ReceiverState, v: seq<string>)
    requires s.Valid() && |v| >= 1 && v[0] != "start" && v[0] != "stop" && |v| != 2
    ensures Command(s, v) == (s, Ok(()))
  {
  }

  /** "settings g": the setting becomes the looked-up gain unless g already is the setting,
      and the buffer is refilled just then. */
  lemma SettingsCommand(s: ReceiverState, v: seq<string>, g: int)
    requires s.Valid() && |v| == 2 && v[0] == "settings" && StoI(v[1]) == Some(g)
    ensures Command(s, v) == (SetGainState(s, g), Ok(()))
    ensures SetGainState(s, g).settings == if g == s.settings then g else GainLevel(s.detectorType, g).0
    ensures Refill(s, v) == if g == s.settings then None else Some(GainLevel(s.detectorType, g))
    ensures !Reallocates(s, v)
  {
  }

  /** "detectortype t" sets the type and never the setting; the buffer is replaced when the
      type changes and never refilled. */
  lemma DetectorTypeCommand(s: ReceiverState, v: seq<string>, t: int)
    requires s.Valid() && |v| == 2 && v[0] == "detectortype" && StoI(v[1]) == Some(t)
    ensures Command(s, v) == (SetGainState(s.(detectorType := t), s.settings), Ok(()))
    ensures Command(s, v).0 == s.(detectorType := t)
    ensures Refill(s, v).None?
    ensures Reallocates(s, v) <==> t != s.detectorType
  {
  }

  /** Any other command keeps the type, and neither replaces nor refills the buffer. */
  lemma OtherCommand(s: ReceiverState, v: seq<string>)
    requires s.Valid() && |v| >= 1
    requires !(v[0] == "detectortype" && |v| == 2 && StoI(v[1]).Some?)
    requires !(v[0] == "settings" && |v| == 2 && StoI(v[1]).Some?)
    ensures Command(s, v).0.detectorType == s.detectorType
    ensures Refill(s, v).None? && !Reallocates(s, v)
  {
  }

  /** "findex n" keeps n modulo 2^64, as the unsigned member does; "fwrite n" turns file
      writing on for any n but 0. */
  lemma NumberCommands(s: ReceiverState, v: seq<string>, n: int)
    requires s.Valid() && |v| == 2 && StoI(v[1]) == Some(n)
    ensures v[0] == "findex" ==>
      Command(s, v) == (s.(output := s.output.(fileIndex := if n < 0 then UINT64_MOD + n else n)), Ok(()))
    ensures v[0] == "fwrite" ==>
      Command(s, v) == (s.(output := s.output.(writeToFile := n != 0)), Ok(()))
  {
  }

  /** An argument std::stoi cannot read throws out of the numeric commands: the receiver stays
      as it was. */
  lemma NumberCommandThrows(s: ReceiverState, v: seq<string>)
    requires s.Valid() && |v| == 2 && v[0] in {"detectortype", "findex", "fwrite", "settings"}
    requires StoI(v[1]).None?
    ensures Command(s, v) == (s, Err("stoi"))
  {
  }

  /** The data thread opens a new file exactly when the frame it counts is MAX_FRAMES_PER_FILE
      frames past the first frame of the current file, and that frame starts the new file. */
  lemma FrameStepRollsOver(s: ReceiverState)
    requires s.Valid() && s.started && s.output.writeToFile
    ensures var r := FrameStep(s);
      && r.frames.currAcqFrameCounter == s.frames.currAcqFrameCounter + 1
      && (r.files.created != s.files.created
          <==> s.frames.currAcqFrameCounter + 1 == s.frames.currFileFirstFrame + MAX_FRAMES_PER_FILE)
      && (r.files.created != s.files.created ==>
            r.frames.currFileFirstFrame == r.frames.currAcqFrameCounter
            && r.files.created == s.files.created + [CurrentFile(r.output, r.frames)])
  {
  }

  /** A rollover opens a file under a path other than the one of the file it replaces, so no
      frames are written over. */
  lemma RolloverOpensNewPath(s: ReceiverState)
    requires s.Valid() && s.started && s.output.writeToFile
    requires s.frames.currAcqFrameCounter + 1 == s.frames.currFileFirstFrame + MAX_FRAMES_PER_FILE
    ensures var r := FrameStep(s);
      && |r.files.created| == |s.files.created| + 1
      && r.files.created[|s.files.created|].Path() != CurrentFile(s.output, s.frames).Path()
  {
    FrameStepRollsOver(s);
    var r := FrameStep(s);
    var a := CurrentFile(s.output, s.frames);
    var b := r.files.created[|s.files.created|];
    FileNameInjective(a.dir, a.prefix, a.firstFrame, a.index, b.firstFrame, b.index);
  }
}
