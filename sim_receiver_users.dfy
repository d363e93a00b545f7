/** The legacy simulated receiver `slsReceiverUsers`: one argv element "--rx_tcpport N" sets
    the port; a TCP session sends ';'-separated commands, and every "rawdata" during an
    acquisition counts a frame and, with a data callback, fills the frame buffer with
    simulated samples at the level of the current setting and writes it to the current raw
    file. */
module SimReceiverUsers {
  import opened Wrappers
  import opened Text
  import opened SimDefs
  import opened RawFiles
  import opened PixelWords
  import opened SimReceiver

  // ----- the command line -----

  const PORT_FLAG: string := "--rx_tcpport"

  /** The constructor's scan: each argv element is split at white space, and an element whose
      first word is "--rx_tcpport" and that has a second word sets the port (std::stoi). */
  function UsersScan(args: seq<string>, port: int): Result<int>
    decreases |args|
  {
    if args == [] then Ok(port)
    else
      var v := Split(args[0], IsSpace);
      if v[0] == PORT_FLAG && |v| > 1 then
        match StoI(v[1])
        case None => Err("stoi")
        case Some(p) => UsersScan(args[1..], p)
      else UsersScan(args[1..], port)
  }

  /** The scan of `slsReceiverUsers(argc, argv, success)`, element by element. */
  method UsersPortFromArgv(argv: seq<string>) returns (r: Result<int>)
    ensures r == UsersScan(argv, SLS_RX_DEFAULT_PORT)
  {
    var port := SLS_RX_DEFAULT_PORT;
    for i := 0 to |argv|
      invariant UsersScan(argv[i..], port) == UsersScan(argv, SLS_RX_DEFAULT_PORT)
    {
      assert argv[i..][0] == argv[i] && argv[i..][1..] == argv[i + 1..];
      var v := Split(argv[i], IsSpace);
      if v[0] == PORT_FLAG && |v| > 1 {
        var p := StoI(v[1]);
        if p.None? {
          return Err("stoi");
        }
        port := p.value;
      }
    }
    assert argv[|argv|..] == [];
    r := Ok(port);
  }

  /** The flag is one word. */
  lemma FlagWord()
    ensures NoneOf(PORT_FLAG, IsSpace)
    ensures Split(PORT_FLAG, IsSpace) == [PORT_FLAG]
  {
    var flag := PORT_FLAG;
    assert forall i | 0 <= i < |flag| :: flag[i] == '-' || 'a' <= flag[i] <= 'z' || flag[i] == '_';
    SplitNoSeparator(flag, IsSpace);
  }

  /** A printed integer is one word, and not the flag. */
  lemma NumberWord(p: int)
    ensures NoneOf(IntToString(p), IsSpace)
    ensures Split(IntToString(p), IsSpace) == [IntToString(p)]
    ensures IntToString(p) != PORT_FLAG
  {
    IntToStringChars(p);
    SplitNoSeparator(IntToString(p), IsSpace);
    if p < 0 {
      var d := NatToString(-p);
      assert IntToString(p)[1] == d[0] && IsDigit(d[0]);
    } else {
      assert IsDigit(NatToString(p)[0]);
    }
  }

  /** Flag, space and number split into the flag and the number. */
  lemma PrintedPortWords(p: int)
    ensures Split(PORT_FLAG + " " + IntToString(p), IsSpace) == [PORT_FLAG, IntToString(p)]
  {
    var flag := PORT_FLAG;
    FlagWord();
    NumberWord(p);
    SplitAppend(flag, IntToString(p), ' ', IsSpace);
    assert flag + [' '] + IntToString(p) == PORT_FLAG + " " + IntToString(p);
  }

  /** An element that does not set the port is passed over. */
  lemma UsersScanSkip(args: seq<string>, port: int)
    requires args != [] && !(Split(args[0], IsSpace)[0] == PORT_FLAG && |Split(args[0], IsSpace)| > 1)
    ensures UsersScan(args, port) == UsersScan(args[1..], port)
  {
  }

  /** Flag and number in one element set the port. */
  lemma UsersPortOneElement(prog: string, p: int)
    requires IsInt32(p) && Split(prog, IsSpace)[0] != PORT_FLAG
    ensures UsersScan([prog, PORT_FLAG + " " + IntToString(p)], SLS_RX_DEFAULT_PORT) == Ok(p)
  {
    var e := PORT_FLAG + " " + IntToString(p);
    PrintedPortWords(p);
    StoIRoundTrip(p);
    UsersScanSkip([prog, e], SLS_RX_DEFAULT_PORT);
    assert [prog, e][1..] == [e];
    assert [e][1..] == [];
    assert UsersScan([e], SLS_RX_DEFAULT_PORT) == UsersScan([], p);
  }

  /** As two elements, flag and number leave the default port: the flag's element has no
      second word. */
  lemma UsersPortTwoElements(prog: string, p: int)
    requires Split(prog, IsSpace)[0] != PORT_FLAG
    ensures UsersScan([prog, PORT_FLAG, IntToString(p)], SLS_RX_DEFAULT_PORT) == Ok(SLS_RX_DEFAULT_PORT)
  {
    var n := IntToString(p);
    FlagWord();
    NumberWord(p);
    UsersScanSkip([prog, PORT_FLAG, n], SLS_RX_DEFAULT_PORT);
    assert [prog, PORT_FLAG, n][1..] == [PORT_FLAG, n];
    UsersScanSkip([PORT_FLAG, n], SLS_RX_DEFAULT_PORT);
    assert [PORT_FLAG, n][1..] == [n];
    UsersScanSkip([n], SLS_RX_DEFAULT_PORT);
    assert [n][1..] == [];
  }

  // ----- the state -----

  /** The scalar members of the receiver: the `start()` flag, the acquisition flag, and those
      shared with `sls::Receiver`. */
  datatype UsersState = UsersState(
    receiverStarted: bool, acquisitionStarted: bool, rxTcpPort: int, settings: int,
    output: Output, frames: Frames, files: FileLog, callbacks: Callbacks)
  {
    predicate Valid() {
      frames.Valid()
    }
  }

  /** After the constructor; the members it leaves uninitialised (file index, setting, file
      writing, acquisition counters) start at 0 or off, the strings empty. */
  function UsersInitial(port: int): (s: UsersState)
    ensures s.Valid() && !s.acquisitionStarted && !s.receiverStarted && s.frames.frameCounter == 0
  {
    UsersState(false, false, port, 0, Output("", "", 0, false), Frames(0, 0, 0),
      FileLog([], false), Callbacks(false, false, false))
  }

  /** `const short gain = m_settings`: the setting truncated to a 16-bit signed value. */
  function Short(n: int): (r: int)
    ensures -0x8000 <= r < 0x8000
    ensures (r - n) % 0x1_0000 == 0
  {
    (n + 0x8000) % 0x1_0000 - 0x8000
  }

  /** The baseline/noise table of "rawdata": low, medium and very high gain have their own
      level, every other setting the high-gain one. */
  function UsersLevel(gain: int): (l: Level)
    ensures l.Valid()
  {
    if gain == LowGain.Code() then Level(1962, 113)
    else if gain == MediumGain.Code() then Level(2676, 79)
    else if gain == VeryHighGain.Code() then Level(5431, 187)
    else Level(4781, 156)
  }

  /** The draws of rand() for frame `frame`. */
  function Draws(rnd: (nat, nat) -> nat, frame: nat): nat -> nat {
    i => rnd(frame, i)
  }

  /** The frame "rawdata" hands to the data callback for frame number `frame`. */
  function Block(channels: nat, settings: int, frame: nat, rnd: (nat, nat) -> nat): seq<Word> {
    Samples(channels, Short(settings), UsersLevel(Short(settings)), Draws(rnd, frame))
  }

  /** Every sample of a frame carries the two low bits of the setting as its gain, and an adc
      value inside the band of the setting's level. */
  lemma BlockUnpacks(channels: nat, settings: int, frame: nat, rnd: (nat, nat) -> nat, i: nat)
    requires i < channels
    ensures Gain14(Block(channels, settings, frame, rnd)[i]) == settings % 4
    ensures var l := UsersLevel(Short(settings));
      l.baseline <= Adc14(Block(channels, settings, frame, rnd)[i]) < l.baseline + l.noise
  {
    SamplesUnpack(channels, Short(settings), UsersLevel(Short(settings)), Draws(rnd, frame), i);
    ShortKeepsLowBits(settings);
  }

  /** Truncating to 16 bits keeps the two low bits. */
  lemma ShortKeepsLowBits(n: int)
    ensures Short(n) % 4 == n % 4
  {
    var q := (n + 0x8000) / 0x1_0000;
    var k := n / 4;
    assert Short(n) == n - 0x1_0000 * q;
    assert n == k * 4 + n % 4;
    DivMod4(Short(n), k - 0x4000 * q, n % 4);
  }

  /** What a piece of input did to the session. */
  datatype Outcome =
    | Next     // go on with the next piece
    | Bye      // "bye": the rest of this read is ignored
    | Dropped  // std::stoi threw: the connection is dropped with the rest of the read

  /** "start": ignored during an acquisition; with a start callback and file writing on, the
      counters restart and the first file is opened. */
  function UsersStart(s: UsersState): (r: UsersState)
    requires s.Valid()
    ensures r.Valid() && r.acquisitionStarted
  {
    if s.acquisitionStarted then s
    else if s.callbacks.start && s.output.writeToFile then
      var f := s.frames.(currAcqFrameCounter := 0, currFileFirstFrame := 0);
      s.(frames := f, files := FileLog(s.files.created + [CurrentFile(s.output, f)], true),
         acquisitionStarted := true)
    else s.(acquisitionStarted := true)
  }

  /** "stop": ignored outside an acquisition; with a finish callback and file writing on, the
      file is closed. */
  function UsersStop(s: UsersState): (r: UsersState)
    requires s.Valid()
    ensures r.Valid() && !r.acquisitionStarted
  {
    if !s.acquisitionStarted then s
    else if s.callbacks.finished && s.output.writeToFile then
      s.(files := s.files.(isOpen := false), acquisitionStarted := false)
    else s.(acquisitionStarted := false)
  }

  /** "rawdata" on the scalar members: ignored outside an acquisition; one more frame; with a
      data callback and file writing on, the frame is counted for the file and a new file
      opened once MAX_FRAMES_PER_FILE frames lie between it and the current file's first. */
  function UsersRawData(s: UsersState): (r: UsersState)
    requires s.Valid()
    ensures r.Valid()
  {
    if !s.acquisitionStarted then s
    else
      var f := s.frames.(frameCounter := s.frames.frameCounter + 1);
      if !(s.callbacks.rawData && s.output.writeToFile) then s.(frames := f)
      else
        var acq := f.currAcqFrameCounter + 1;
        if acq - f.currFileFirstFrame >= MAX_FRAMES_PER_FILE then
          var g := f.(currAcqFrameCounter := acq, currFileFirstFrame := acq);
          s.(frames := g, files := FileLog(s.files.created + [CurrentFile(s.output, g)], true))
        else s.(frames := f.(currAcqFrameCounter := acq))
  }

  /** The command words of the TCP loop. */
  datatype Verb = ByeCmd | StartCmd | StopCmd | RawDataCmd | OutDirCmd | FNameCmd | IndexCmd | EnableFWriteCmd | SettingsCmd | OtherCmd

  /** The chain of comparisons that picks the branch for a command word. */
  function VerbOf(cmd: string): Verb {
    if cmd == "bye" then ByeCmd
    else if cmd == "start" then StartCmd
    else if cmd == "stop" then StopCmd
    else if cmd == "rawdata" then RawDataCmd
    else if cmd == "outdir" then OutDirCmd
    else if cmd == "fname" then FNameCmd
    else if cmd == "index" then IndexCmd
    else if cmd == "enablefwrite" then EnableFWriteCmd
    else if cmd == "settings" then SettingsCmd
    else OtherCmd
  }

  /** Whether a piece makes "rawdata" fill the frame buffer. */
  predicate Fills(s: UsersState, v: seq<string>)
    requires |v| >= 1
  {
    VerbOf(v[0]) == RawDataCmd && s.acquisitionStarted && s.callbacks.rawData
  }

  /** One piece of input, split at white space. */
  function Piece(s: UsersState, v: seq<string>): (r: (UsersState, Outcome))
    requires s.Valid() && |v| >= 1
    ensures r.0.Valid()
    ensures r.1 != Next ==> r.0 == s
  {
    var verb := VerbOf(v[0]);
    if verb == ByeCmd then (s, Bye)
    else if verb == StartCmd then (UsersStart(s), Next)
    else if verb == StopCmd then (UsersStop(s), Next)
    else if verb == RawDataCmd then (UsersRawData(s), Next)
    else if verb == OtherCmd || |v| <= 1 then (s, Next)
    else if verb == OutDirCmd then (s.(output := s.output.(filePath := v[1])), Next)
    else if verb == FNameCmd then (s.(output := s.output.(fileName := v[1])), Next)
    else match StoI(v[1])
      case None => (s, Dropped)
      case Some(n) =>
        if verb == IndexCmd then (s.(output := s.output.(fileIndex := n % UINT64_MOD)), Next)
        else if verb == EnableFWriteCmd then (s.(output := s.output.(writeToFile := n != 0)), Next)
        else (s.(settings := n), Next)
  }

  /** The last frame filled: its number and the setting it was filled at. */
  datatype Fill = Fill(frame: nat, settings: int)

  /** One non-empty piece: split at white space and processed; with the frame it fills, if
      it fills one. */
  function Step(s: UsersState, piece: string): (r: (UsersState, Outcome, Option<Fill>))
    requires s.Valid()
    ensures r.0.Valid()
  {
    var v := Split(piece, IsSpace);
    var step := Piece(s, v);
    (step.0, step.1, if Fills(s, v) then Some(Fill(s.frames.frameCounter + 1, s.settings)) else None)
  }

  /** One read of the session, split at ';': the state after it, how it ended, and the last
      frame a "rawdata" filled, if any. */
  function Read(s: UsersState, pieces: seq<string>): (r: (UsersState, Outcome, Option<Fill>))
    requires s.Valid()
    ensures r.0.Valid()
    decreases |pieces|
  {
    if pieces == [] then (s, Next, None)
    else if pieces[0] == "" then Read(s, pieces[1..])
    else
      var step := Step(s, pieces[0]);
      if step.1 != Next then step
      else
        var rest := Read(step.0, pieces[1..]);
        (rest.0, rest.1, Latest(rest.2, step.2))
  }

  // ----- the object -----

  class ReceiverUsers {
    var receiverStarted: bool
    var acquisitionStarted: bool
    var rxTcpPort: int
    var settings: int
    var output: Output
    var frames: Frames
    var files: FileLog
    var callbacks: Callbacks
    /** `m_data`: one frame of SLS_CHANNELS samples. */
    var data: array<Word>

    function State(): UsersState
      reads this
    {
      UsersState(receiverStarted, acquisitionStarted, rxTcpPort, settings, output, frames, files, callbacks)
    }

    predicate Valid()
      reads this
    {
      State().Valid()
    }

    /** `slsReceiverUsers(argc, argv, success)` once `UsersPortFromArgv` has read the port,
        for a build with `channels` channels. */
    constructor (port: int, channels: nat)
      ensures Valid() && State() == UsersInitial(port) && data.Length == channels && fresh(data)
    {
      var s := UsersInitial(port);
      receiverStarted := s.receiverStarted;
      acquisitionStarted := s.acquisitionStarted;
      rxTcpPort := s.rxTcpPort;
      settings := s.settings;
      output := s.output;
      frames := s.frames;
      files := s.files;
      callbacks := s.callbacks;
      data := new Word[channels];
    }

    /** `start()`: always succeeds. */
    method Start() returns (r: int)
      modifies this
      ensures r == 0 && State() == old(State()).(receiverStarted := true) && data == old(data)
    {
      receiverStarted := true;
      r := 0;
    }

    /** `stop()`. */
    method Stop()
      modifies this
      ensures State() == old(State()).(receiverStarted := false) && data == old(data)
    {
      receiverStarted := false;
    }

    /** `closeFile(p)` always throws. */
    method CloseFile(p: int) returns (r: Result<()>)
      ensures r == Err("slsReceiverUsers::closeFile not implemented")
    {
      r := Err("slsReceiverUsers::closeFile not implemented");
    }

    method RegisterCallBackStartAcquisition(given: bool)
      modifies this
      ensures State() == old(State()).(callbacks := old(callbacks).(start := given)) && data == old(data)
    {
      callbacks := callbacks.(start := given);
    }

    method RegisterCallBackAcquisitionFinished(given: bool)
      modifies this
      ensures State() == old(State()).(callbacks := old(callbacks).(finished := given)) && data == old(data)
    {
      callbacks := callbacks.(finished := given);
    }

    method RegisterCallBackRawDataReady(given: bool)
      modifies this
      ensures State() == old(State()).(callbacks := old(callbacks).(rawData := given)) && data == old(data)
    {
      callbacks := callbacks.(rawData := given);
    }

    /** Takes over scalar members computed by `Piece`. */
    method Load(s: UsersState)
      modifies this
      ensures State() == s && data == old(data)
    {
      receiverStarted := s.receiverStarted;
      acquisitionStarted := s.acquisitionStarted;
      rxTcpPort := s.rxTcpPort;
      settings := s.settings;
      output := s.output;
      frames := s.frames;
      files := s.files;
      callbacks := s.callbacks;
    }

    /** One command of the TCP loop: the members follow `Piece`, and a filling "rawdata"
        writes the frame into the buffer. */
    method ProcessPiece(v: seq<string>, rnd: (nat, nat) -> nat) returns (o: Outcome)
      requires Valid() && |v| >= 1
      modifies this, data
      ensures Valid() && (State(), o) == Piece(old(State()), v) && data == old(data)
      ensures Fills(old(State()), v) ==>
        data[..] == Block(data.Length, old(settings), old(frames.frameCounter) + 1, rnd)
      ensures !Fills(old(State()), v) ==> data[..] == old(data[..])
    {
      var s := State();
      var next := Piece(s, v);
      if Fills(s, v) {
        var frame := frames.frameCounter + 1;
        var gain := Short(settings);
        FillSamples(data, data.Length, gain, UsersLevel(gain), Draws(rnd, frame));
        assert data[..] == data[..data.Length];
        assert data[..] == Block(data.Length, s.settings, frame, rnd);
      }
      Load(next.0);
      o := next.1;
    }

    /** One non-empty piece: split at white space and processed. */
    method ProcessStep(piece: string, rnd: (nat, nat) -> nat) returns (o: Outcome)
      requires Valid()
      modifies this, data
      ensures Valid() && data == old(data)
      ensures var r := Step(old(State()), piece);
        State() == r.0 && o == r.1 && Shows(data[..], r.2, old(data[..]), rnd)
    {
      var v := Split(piece, IsSpace);
      ghost var s0 := State();
      ghost var fill := if Fills(s0, v) then Some(Fill(s0.frames.frameCounter + 1, s0.settings)) else None;
      assert Step(s0, piece) == (Piece(s0, v).0, Piece(s0, v).1, fill);
      o := ProcessPiece(v, rnd);
      assert Shows(data[..], fill, old(data[..]), rnd);
    }

    /** One read of the TCP loop: the text is split at ';', empty pieces are skipped, and the
        pieces are processed in order until "bye" or a failing std::stoi. */
    method ProcessRead(text: string, rnd: (nat, nat) -> nat) returns (o: Outcome)
      requires Valid()
      modifies this, data
      ensures Valid() && data == old(data)
      ensures var r := Read(old(State()), Split(text, c => c == ';'));
        State() == r.0 && o == r.1 && Shows(data[..], r.2, old(data[..]), rnd)
    {
      var pieces := Split(text, c => c == ';');
      ghost var s0 := State();
      ghost var fill: Option<Fill> := None;
      var i := 0;
      o := Next;
      while i < |pieces|
        invariant 0 <= i <= |pieces| && Valid() && data == old(data)
        invariant Read(s0, pieces) == Combine(Read(State(), pieces[i..]), fill)
        invariant Shows(data[..], fill, old(data[..]), rnd)
        decreases |pieces| - i
      {
        assert pieces[i..][0] == pieces[i] && pieces[i..][1..] == pieces[i + 1..];
        if pieces[i] == "" {
          ReadSkip(State(), pieces[i..]);
        } else {
          ghost var step := Step(State(), pieces[i]);
          if step.1 == Next {
            ReadGoesOn(State(), pieces[i..]);
          } else {
            ReadStopsAt(State(), pieces[i..]);
          }
          o := ProcessStep(pieces[i], rnd);
          fill := Latest(step.2, fill);
          if o != Next {
            return;
          }
        }
        i := i + 1;
      }
      assert pieces[i..] == [];
      o := Next;
    }
  }

  /** A read's outcome with an earlier fill behind its own. */
  function Combine(r: (UsersState, Outcome, Option<Fill>), earlier: Option<Fill>): (UsersState, Outcome, Option<Fill>) {
    (r.0, r.1, Latest(r.2, earlier))
  }

  /** The later of two fills. */
  function Latest(later: Option<Fill>, earlier: Option<Fill>): Option<Fill> {
    if later.Some? then later else earlier
  }

  /** The buffer holds the frame of the last fill, or what it held before when there was
      none. */
  predicate Shows(d: seq<Word>, fill: Option<Fill>, before: seq<Word>, rnd: (nat, nat) -> nat) {
    match fill
    case Some(f) => d == Block(|d|, f.settings, f.frame, rnd)
    case None => d == before
  }

  /** `Read` passes over an empty piece. */
  lemma ReadSkip(s: UsersState, pieces: seq<string>)
    requires s.Valid() && pieces != [] && pieces[0] == ""
    ensures Read(s, pieces) == Read(s, pieces[1..])
  {
  }

  /** `Read` on a list that starts with a command that ends the read. */
  lemma ReadStopsAt(s: UsersState, pieces: seq<string>)
    requires s.Valid() && pieces != [] && pieces[0] != ""
    requires Step(s, pieces[0]).1 != Next
    ensures Read(s, pieces) == Step(s, pieces[0])
  {
  }

  /** `Read` on a list that starts with a command after which the read goes on. */
  lemma ReadGoesOn(s: UsersState, pieces: seq<string>)
    requires s.Valid() && pieces != [] && pieces[0] != ""
    requires Step(s, pieces[0]).1 == Next
    ensures Read(s, pieces) == Combine(Read(Step(s, pieces[0]).0, pieces[1..]), Step(s, pieces[0]).2)
  {
  }

  // ----- what the session promises -----

  /** "start" during an acquisition, "stop" and "rawdata" outside one, change nothing; "start"
      and "stop" done twice are done once. */
  lemma UsersStartStopOnce(s: UsersState, v: seq<string>)
    requires s.Valid() && |v| >= 1
    ensures v[0] == "start" && s.acquisitionStarted ==> Piece(s, v) == (s, Next)
    ensures v[0] in {"stop", "rawdata"} && !s.acquisitionStarted ==> Piece(s, v) == (s, Next)
    ensures v[0] in {"start", "stop"} ==> Piece(Piece(s, v).0, v) == Piece(s, v)
  {
  }

  /** Each accepted "rawdata" counts exactly one frame, the number the data callback gets
      with it, and changes neither the setting nor the acquisition flag. */
  lemma RawDataCountsOne(s: UsersState, v: seq<string>)
    requires s.Valid() && |v| >= 1 && v[0] == "rawdata" && s.acquisitionStarted
    ensures Piece(s, v).0.frames.frameCounter == s.frames.frameCounter + 1
    ensures Piece(s, v).0.settings == s.settings
    ensures Piece(s, v).0.acquisitionStarted && Piece(s, v).1 == Next
  {
  }

  /** The parameter commands need a second word; without one nothing changes. */
  lemma UsersOneWord(s: UsersState, cmd: string)
    requires s.Valid() && cmd in {"outdir", "fname", "index", "enablefwrite", "settings"}
    ensures Piece(s, [cmd]) == (s, Next)
  {
  }

  /** "settings n" stores n itself; the level the samples get is looked up from its 16-bit
      value only when a frame is filled. */
  lemma UsersSettingsCommand(s: UsersState, v: seq<string>, n: int)
    requires s.Valid() && |v| >= 2 && v[0] == "settings" && StoI(v[1]) == Some(n)
    ensures Piece(s, v) == (s.(settings := n), Next)
  {
  }

  /** A number std::stoi cannot read drops the connection before anything changes. */
  lemma UsersNumberThrows(s: UsersState, v: seq<string>)
    requires s.Valid() && |v| >= 2 && v[0] in {"index", "enablefwrite", "settings"} && StoI(v[1]).None?
    ensures Piece(s, v) == (s, Dropped)
  {
  }

  /** Empty pieces are skipped, and nothing after a "bye" or a dropped connection is read. */
  lemma {:induction false} ReadStops(s: UsersState, before: seq<string>, piece: string, after: seq<string>)
    requires s.Valid() && forall i | 0 <= i < |before| :: before[i] == ""
    requires piece != "" && Step(s, piece).1 != Next
    ensures Read(s, before + [piece] + after).0 == s
    ensures Read(s, before + [piece] + after).1 == Step(s, piece).1
    decreases |before|
  {
    if before == [] {
      assert ([piece] + after)[0] == piece;
      assert before + [piece] + after == [piece] + after;
    } else {
      assert (before + [piece] + after)[1..] == before[1..] + [piece] + after;
      ReadStops(s, before[1..], piece, after);
    }
  }

  /** With a data callback and file writing on, "rawdata" opens a new file exactly when the
      frame it counts is MAX_FRAMES_PER_FILE frames past the first frame of the current file. */
  lemma RawDataRollsOver(s: UsersState)
    requires s.Valid() && s.acquisitionStarted && s.callbacks.rawData && s.output.writeToFile
    ensures var r := UsersRawData(s);
      && r.frames.currAcqFrameCounter == s.frames.currAcqFrameCounter + 1
      && (r.files.created != s.files.created
          <==> s.frames.currAcqFrameCounter + 1 == s.frames.currFileFirstFrame + MAX_FRAMES_PER_FILE)
      && (r.files.created != s.files.created ==>
            r.frames.currFileFirstFrame == r.frames.currAcqFrameCounter
            && r.files.created == s.files.created + [CurrentFile(r.output, r.frames)])
  {
  }
}
