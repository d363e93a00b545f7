/** The legacy simulated detector `slsDetectorUsers` as an object: its members grouped as in
    `UsersModel.UsersState`, each setter updating them in place, and putCommand, getCommand
    and the configuration reader running the interpreter of `UsersCommands` line by line. */
module SimDetectorUsers {
  import opened Wrappers
  import opened Text
  import opened UsersTables
  import opened UsersModel
  import opened UsersCommands
  import Commands = DetectorCommands

  class DetectorUsers {
    var detectorType: int
    var online: bool
    var files: Files
    var corrections: Corrections
    var geometry: Geometry
    var acquisition: Acquisition
    var readout: Readout
    var setup: Setup
    var images: Images
    var network: Network

    /** The value of the object as the model describes it. */
    function State(): UsersState
      reads this
    {
      UsersState(detectorType, online, files, corrections, geometry, acquisition, readout, setup,
                 images, network)
    }

    predicate Valid()
      reads this
    {
      State().Valid()
    }

    /** `slsDetectorUsers(ret, id)`: the id is not kept (the controller id is always 0) and
        every member takes its default. */
    constructor (id: int)
      ensures Valid() && State() == UsersDefaults()
    {
      var d := UsersDefaults();
      detectorType := d.detectorType;
      online := d.online;
      files := d.files;
      corrections := d.corrections;
      geometry := d.geometry;
      acquisition := d.acquisition;
      readout := d.readout;
      setup := d.setup;
      images := d.images;
      network := d.network;
    }

    /** Takes over a state computed by the command interpreter. */
    method Load(t: UsersState)
      modifies this
      ensures State() == t
    {
      detectorType := t.detectorType;
      online := t.online;
      files := t.files;
      corrections := t.corrections;
      geometry := t.geometry;
      acquisition := t.acquisition;
      readout := t.readout;
      setup := t.setup;
      images := t.images;
      network := t.network;
    }

    // ----- the tri-state setters -----

    /** `setOnline(i)`: 0 and 1 set the flag, anything else asks; the reply is 1 iff online. */
    method SetOnline(i: int) returns (r: int)
      modifies this
      ensures State() == old(State()).(online := TriState(old(online), i))
      ensures r == FlagReply(online)
    {
      if i == 0 {
        online := false;
      } else if i == 1 {
        online := true;
      }
      r := if online then 1 else 0;
    }

    /** `enableFlatFieldCorrection(i)`. */
    method EnableFlatFieldCorrection(i: int) returns (r: int)
      modifies this
      ensures State() == old(State()).(corrections := old(corrections).(flatField := TriState(old(corrections.flatField), i)))
      ensures r == FlagReply(corrections.flatField)
    {
      if i == 0 {
        corrections := corrections.(flatField := false);
      } else if i == 1 {
        corrections := corrections.(flatField := true);
      }
      r := if corrections.flatField then 1 else 0;
    }

    /** `enableCountRateCorrection(i)`. */
    method EnableCountRateCorrection(i: int) returns (r: int)
      modifies this
      ensures State() == old(State()).(corrections := old(corrections).(countRate := TriState(old(corrections.countRate), i)))
      ensures r == FlagReply(corrections.countRate)
    {
      if i == 0 {
        corrections := corrections.(countRate := false);
      } else if i == 1 {
        corrections := corrections.(countRate := true);
      }
      r := if corrections.countRate then 1 else 0;
    }

    /** `enablePixelMaskCorrection(i)`. */
    method EnablePixelMaskCorrection(i: int) returns (r: int)
      modifies this
      ensures State() == old(State()).(corrections := old(corrections).(pixelMask := TriState(old(corrections.pixelMask), i)))
      ensures r == FlagReply(corrections.pixelMask)
    {
      if i == 0 {
        corrections := corrections.(pixelMask := false);
      } else if i == 1 {
        corrections := corrections.(pixelMask := true);
      }
      r := if corrections.pixelMask then 1 else 0;
    }

    /** `enableAngularConversion(i)`. */
    method EnableAngularConversion(i: int) returns (r: int)
      modifies this
      ensures State() == old(State()).(corrections := old(corrections).(angular := TriState(old(corrections.angular), i)))
      ensures r == FlagReply(corrections.angular)
    {
      if i == 0 {
        corrections := corrections.(angular := false);
      } else if i == 1 {
        corrections := corrections.(angular := true);
      }
      r := if corrections.angular then 1 else 0;
    }

    /** `enableWriteToFile(i)`. */
    method EnableWriteToFile(i: int) returns (r: int)
      modifies this
      ensures State() == old(State()).(files := old(files).(writeToFile := TriState(old(files.writeToFile), i)))
      ensures r == FlagReply(files.writeToFile)
    {
      if i == 0 {
        files := files.(writeToFile := false);
      } else if i == 1 {
        files := files.(writeToFile := true);
      }
      r := if files.writeToFile then 1 else 0;
    }

    // ----- files -----

    /** `getDetectorStatus()`. */
    function GetDetectorStatus(): int
      reads this
    {
      acquisition.status
    }

    /** `setFilePath(s)`: stores and returns the path. */
    method SetFilePath(s: string) returns (r: string)
      modifies this
      ensures State() == old(State()).(files := old(files).(filePath := s)) && r == s
    {
      files := files.(filePath := s);
      r := s;
    }

    /** `setFileName(s)`: stores and returns the name. */
    method SetFileName(s: string) returns (r: string)
      modifies this
      ensures State() == old(State()).(files := old(files).(fileName := s)) && r == s
    {
      files := files.(fileName := s);
      r := s;
    }

    /** `setFileIndex(i)`: any index, negative ones included, is stored and returned. */
    method SetFileIndex(i: int) returns (r: int)
      modifies this
      ensures State() == old(State()).(files := old(files).(fileIndex := i)) && r == i
    {
      files := files.(fileIndex := i);
      r := files.fileIndex;
    }

    /** `setFlatFieldCorrectionDir(dir)`: stores and returns the directory. */
    method SetFlatFieldCorrectionDir(dir: string) returns (r: string)
      modifies this
      ensures State() == old(State()).(files := old(files).(flatFieldDir := dir)) && r == dir
    {
      files := files.(flatFieldDir := dir);
      r := files.flatFieldDir;
    }

    /** `setFlatFieldCorrectionFile(fname)`: stores the file; the reply is 0 for "" (no flat
        field) and 1 otherwise, and the correction flag itself is left alone. */
    method SetFlatFieldCorrectionFile(fname: string) returns (r: int)
      modifies this
      ensures State() == old(State()).(files := old(files).(flatFieldFile := fname))
      ensures r == 0 <==> fname == ""
      ensures r == 0 || r == 1
    {
      files := files.(flatFieldFile := fname);
      r := if fname == "" then 0 else 1;
    }

    // ----- the geometry -----

    /** `setDetectorSize(x0, y0, nx, ny)` as written: x0 and y0 follow the sentinel rule, nx
        and ny are stored whenever the STORED size is non-negative (see
        `UsersModel.SetDetectorSizeAsWrittenLocks` for what that leads to, and
        `UsersModel.SetDetectorSize` for the intended rule). */
    method SetDetectorSize(x0: int, y0: int, nx: int, ny: int) returns (r: int)
      modifies this
      ensures State() == old(State()).(geometry := UsersModel.SetDetectorSizeAsWritten(old(geometry), x0, y0, nx, ny))
      ensures r == 0
    {
      if x0 >= 0 {
        geometry := geometry.(x0 := x0);
      }
      if y0 >= 0 {
        geometry := geometry.(y0 := y0);
      }
      if geometry.nx >= 0 {
        geometry := geometry.(nx := nx);
      }
      if geometry.ny >= 0 {
        geometry := geometry.(ny := ny);
      }
      r := 0;
    }

    /** `getDetectorSize(x0, y0, nx, ny)`. */
    method GetDetectorSize() returns (x0: int, y0: int, nx: int, ny: int)
      ensures Geometry(x0, y0, nx, ny) == geometry
    {
      x0, y0, nx, ny := geometry.x0, geometry.y0, geometry.nx, geometry.ny;
    }

    // ----- the setters that ignore a negative argument -----

    /** `setBitDepth(i)`. */
    method SetBitDepth(i: int) returns (r: int)
      modifies this
      ensures State() == old(State()).(readout := old(readout).(bitDepth := Sentinel(old(readout.bitDepth), i)))
      ensures r == readout.bitDepth
    {
      if i >= 0 {
        readout := readout.(bitDepth := i);
      }
      r := readout.bitDepth;
    }

    /** `setSettings(isettings)`. */
    method SetSettings(isettings: int) returns (r: int)
      modifies this
      ensures State() == old(State()).(readout := old(readout).(settings := Sentinel(old(readout.settings), isettings)))
      ensures r == readout.settings
    {
      if isettings >= 0 {
        readout := readout.(settings := isettings);
      }
      r := readout.settings;
    }

    /** `setThresholdEnergy(e_eV)`. */
    method SetThresholdEnergy(e: int) returns (r: int)
      modifies this
      ensures State() == old(State()).(readout := old(readout).(threshold := Sentinel(old(readout.threshold), e)))
      ensures r == readout.threshold
    {
      if e >= 0 {
        readout := readout.(threshold := e);
      }
      r := readout.threshold;
    }

    /** `setBeamEnergy(e_eV)`. */
    method SetBeamEnergy(e: int) returns (r: int)
      modifies this
      ensures State() == old(State()).(readout := old(readout).(beamEnergy := Sentinel(old(readout.beamEnergy), e)))
      ensures r == readout.beamEnergy
    {
      if e >= 0 {
        readout := readout.(beamEnergy := e);
      }
      r := readout.beamEnergy;
    }

    /** `setReceiverMode(n)`. */
    method SetReceiverMode(n: int) returns (r: int)
      modifies this
      ensures State() == old(State()).(readout := old(readout).(receiverMode := Sentinel(old(readout.receiverMode), n)))
      ensures r == readout.receiverMode
    {
      if n >= 0 {
        readout := readout.(receiverMode := n);
      }
      r := readout.receiverMode;
    }

    /** `setNumberOfGates(t)`. */
    method SetNumberOfGates(t: int) returns (r: int)
      modifies this
      ensures State() == old(State()).(acquisition := old(acquisition).(gates := Sentinel(old(acquisition.gates), t)))
      ensures r == acquisition.gates
    {
      if t >= 0 {
        acquisition := acquisition.(gates := t);
      }
      r := acquisition.gates;
    }

    /** `setNumberOfFrames(t)`. */
    method SetNumberOfFrames(t: int) returns (r: int)
      modifies this
      ensures State() == old(State()).(acquisition := old(acquisition).(frames := Sentinel(old(acquisition.frames), t)))
      ensures r == acquisition.frames
    {
      if t >= 0 {
        acquisition := acquisition.(frames := t);
      }
      r := acquisition.frames;
    }

    /** `setNumberOfCycles(t)`. */
    method SetNumberOfCycles(t: int) returns (r: int)
      modifies this
      ensures State() == old(State()).(acquisition := old(acquisition).(cycles := Sentinel(old(acquisition.cycles), t)))
      ensures r == acquisition.cycles
    {
      if t >= 0 {
        acquisition := acquisition.(cycles := t);
      }
      r := acquisition.cycles;
    }

    /** `setTimingMode(pol)`. */
    method SetTimingMode(pol: int) returns (r: int)
      modifies this
      ensures State() == old(State()).(acquisition := old(acquisition).(timing := Sentinel(old(acquisition.timing), pol)))
      ensures r == acquisition.timing
    {
      if pol >= 0 {
        acquisition := acquisition.(timing := pol);
      }
      r := acquisition.timing;
    }

    // ----- type and receiver -----

    /** `setDetectorType(type)`: any code is stored and returned. */
    method SetDetectorType(t: int) returns (r: int)
      modifies this
      ensures State() == old(State()).(detectorType := t) && r == t
    {
      detectorType := t;
      r := t;
    }

    /** `getDetectorType()`. */
    function GetDetectorType(): (r: string)
      reads this
      ensures r in {"Undefined", "Gotthard", "Jungfrau"}
    {
      TypeReplyNames(detectorType);
      TypeReply(detectorType)
    }

    /** `setRxHostname(rx_hostname)`. */
    method SetRxHostname(h: string)
      modifies this
      ensures State() == old(State()).(network := old(network).(rxHostname := h))
    {
      network := network.(rxHostname := h);
    }

    // ----- measurements -----

    /** `startMeasurementNoWait()` (the counters; the receiver messages are not modelled). */
    method StartMeasurementNoWait()
      modifies this
      ensures State() == UsersModel.StartMeasurement(old(State()))
    {
      var g := if acquisition.gates > 1 then acquisition.gates else 1;
      var c := if acquisition.cycles > 1 then acquisition.cycles else 1;
      acquisition := acquisition.(neededFrames := acquisition.frames * g * c, status := STATUS_RUNNING);
    }

    /** `stopMeasurement()`: idle, and the next file index. */
    method StopMeasurement()
      modifies this
      ensures State() == UsersModel.StopMeasurement(old(State()))
    {
      acquisition := acquisition.(status := STATUS_IDLE);
      files := files.(fileIndex := files.fileIndex + 1);
    }

    /** One pass of `dataWorker`. */
    method DataWorkerStep()
      modifies this
      ensures State() == DataStep(old(State()))
    {
      if acquisition.status == STATUS_RUNNING && acquisition.neededFrames <= 0 {
        StopMeasurement();
      } else if acquisition.status == STATUS_RUNNING {
        acquisition := acquisition.(neededFrames := acquisition.neededFrames - 1);
      }
    }

    // ----- the command interpreter -----

    /** `putCommand(narg, args)`. */
    method PutCommand(args: seq<string>) returns (reply: Result<string>)
      requires Valid()
      modifies this
      ensures Valid()
      ensures (State(), reply) == Put(old(State()), args)
    {
      var t;
      t, reply := Put(State(), args).0, Put(State(), args).1;
      Load(t);
    }

    /** `getCommand(narg, args)`: the lines in turn, until one answers. */
    method GetCommand(args: seq<string>) returns (reply: Result<string>)
      requires Valid()
      modifies this
      ensures Valid()
      ensures (State(), reply) == Get(old(State()), args)
    {
      var i := 0;
      while i < |args|
        invariant 0 <= i <= |args| && Valid()
        invariant GetFrom(State(), args, i) == Get(old(State()), args)
        decreases |args| - i
      {
        var s := State();
        var step := GetLine(s, args[i]);
        GetFromStep(s, args, i);
        if step.Answer? {
          return step.reply;
        }
        // the state an "acquire" line leaves is that of `startMeasurementNoWait`
        Load(step.state);
        i := i + 1;
      }
      return Ok("");
    }

    /** `readConfigurationFile(fname)` and `retrieveDetectorSetup(fname)` on the file's
        lines: each line split at white space and run through putCommand; an exception ends
        the reading. */
    method ReadConfigurationFile(lines: seq<string>) returns (r: Result<()>)
      requires Valid()
      modifies this
      ensures Valid()
      ensures (State(), r) == ReadLines(old(State()), lines)
    {
      var k := 0;
      while k < |lines|
        invariant 0 <= k <= |lines| && Valid()
        invariant ReadLines(State(), lines[k..]) == ReadLines(old(State()), lines)
      {
        assert lines[k..][1..] == lines[k + 1..];
        var reply := PutCommand(Split(lines[k], IsSpace));
        if reply.Err? {
          return Err(reply.message);
        }
        k := k + 1;
      }
      return Ok(());
    }
  }

  /** The lines of a configuration file run one after the other through putCommand, up to
      the first exception. */
  function ReadLines(s: UsersState, lines: seq<string>): (r: (UsersState, Result<()>))
    requires s.Valid()
    ensures r.0.Valid()
    decreases |lines|
  {
    if lines == [] then (s, Ok(()))
    else
      var p := Put(s, Split(lines[0], IsSpace));
      if p.1.Err? then (p.0, Err(p.1.message)) else ReadLines(p.0, lines[1..])
  }

  /** Reading two files one after the other is reading their concatenation, unless the first
      throws, which ends the reading. */
  lemma {:induction false} ReadLinesAppend(s: UsersState, a: seq<string>, b: seq<string>)
    requires s.Valid()
    ensures ReadLines(s, a + b)
            == (var ra := ReadLines(s, a); if ra.1.Err? then ra else ReadLines(ra.0, b))
    decreases |a|
  {
    if a == [] {
      assert a + b == b;
    } else {
      assert (a + b)[0] == a[0];
      assert (a + b)[1..] == a[1..] + b;
      var p := Put(s, Split(a[0], IsSpace));
      assert ReadLines(s, a) == if p.1.Err? then (p.0, Err(p.1.message)) else ReadLines(p.0, a[1..]);
      assert ReadLines(s, a + b) == if p.1.Err? then (p.0, Err(p.1.message)) else ReadLines(p.0, a[1..] + b);
      if p.1.Ok? {
        ReadLinesAppend(p.0, a[1..], b);
      }
    }
  }
}
