// The simulated `sls::Detector` as an object whose fields its methods update in place.

module SimDetector {
  import opened Wrappers
  import opened Text
  import opened SimDefs
  import opened DetectorModel
  import opened DetectorCommands

  /** The loop of every per-position setter: `x` written at each listed position in turn,
      stopping with an exception at the first one that is not a module; an empty list
      assigns `x` to every module. */
  method AssignAt<T>(v: seq<T>, x: T, pos: seq<int>) returns (w: seq<T>, thrown: bool)
    ensures w == Assigned(v, x, pos)
    ensures thrown == SetterThrows(|v|, pos)
  {
    if pos == [] {
      return seq(|v|, _ => x), false;
    }
    w, thrown := v, false;
    var k := 0;
    while k < |pos|
      invariant 0 <= k <= |pos| && |w| == |v|
      invariant AssignEach(w, x, pos[k..]) == AssignEach(v, x, pos)
      invariant AllIn(pos[..k], |v|)
    {
      assert pos[k..][0] == pos[k] && pos[k..][1..] == pos[k + 1..];
      if !(0 <= pos[k] < |w|) {
        assert !(0 <= pos[k] < |v|);
        assert AssignEach(w, x, pos[k..]) == w;
        thrown := true;
        return;
      }
      assert AssignEach(w, x, pos[k..]) == AssignEach(w[pos[k] := x], x, pos[k + 1..]);
      w := w[pos[k] := x];
      assert pos[..k + 1] == pos[..k] + [pos[k]];
      k := k + 1;
    }
    assert pos[..k] == pos;
  }

  /** The loop of every per-position getter: the entries at the listed positions, in order,
      or the exception `who : position not found!` at the first one that is not a module; an
      empty list answers the whole vector. */
  method GatherAt<T>(v: seq<T>, pos: seq<int>, who: string) returns (r: Result<seq<T>>)
    ensures r == Gathered(v, pos, who)
  {
    if pos == [] {
      return Ok(v);
    }
    var got: seq<T> := [];
    var k := 0;
    while k < |pos|
      invariant 0 <= k <= |pos| && |got| == k
      invariant AllIn(pos[..k], |v|)
      invariant forall j | 0 <= j < k :: got[j] == v[pos[j]]
    {
      if !(0 <= pos[k] < |v|) {
        assert !AllIn(pos, |v|) by { assert !(0 <= pos[k] < |v|); }
        return Err(who + " : position not found!");
      }
      assert pos[..k + 1] == pos[..k] + [pos[k]];
      got := got + [v[pos[k]]];
      k := k + 1;
    }
    assert pos[..k] == pos;
    assert got == seq(|pos|, j requires 0 <= j < |pos| => v[pos[j]]);
    return Ok(got);
  }

  /** `getSerialNumber(pos)`: nothing for the default (empty) list, else one serial number per
      listed position, module p numbered 0xFFF20000 + p. */
  method GetSerialNumber(pos: seq<int>) returns (sn: seq<int>)
    ensures |sn| == |pos|
    ensures forall k | 0 <= k < |pos| :: sn[k] == SERIAL_NUMBER_BASE + pos[k]
  {
    sn := [];
    for k := 0 to |pos|
      invariant |sn| == k
      invariant forall j | 0 <= j < k :: sn[j] == SERIAL_NUMBER_BASE + pos[j]
    {
      sn := sn + [SERIAL_NUMBER_BASE + pos[k]];
    }
  }

  const NOT_IMPLEMENTED: string := " not implemented"

  /** `registerAcquisitionFinishedCallback` always throws. */
  function RegisterAcquisitionFinishedCallback(): (r: Result<()>)
    ensures r.Err? && r.message == "Detector::registerAcquisitionFinishedCallback" + NOT_IMPLEMENTED
  {
    Err("Detector::registerAcquisitionFinishedCallback" + NOT_IMPLEMENTED)
  }

  /** `registerDataCallback` always throws. */
  function RegisterDataCallback(): (r: Result<()>)
    ensures r.Err? && r.message == "Detector::registerDataCallback" + NOT_IMPLEMENTED
  {
    Err("Detector::registerDataCallback" + NOT_IMPLEMENTED)
  }

  /** `getPackageVersion` and `getClientVersion`: the 7.0.1 API. */
  function PackageVersion(): (v: string)
    ensures v == PACKAGE_VERSION == "7.0.1"
  {
    PACKAGE_VERSION
  }

  class Detector {
    const shmId: int
    var hostname: seq<string>
    var settings: seq<DetectorSettings>
    var filePath: seq<string>
    var fileName: seq<string>
    var fileIndex: seq<int>
    var highVoltage: seq<int>
    var powerChip: seq<bool>
    var acquisition: Acquisition
    var network: Network
    var setup: Setup
    var registers: map<u32, u32>

    /** The value of the object as the model describes it. */
    function State(): DetectorState
      reads this
    {
      DetectorState(shmId, hostname,
        ModuleVectors(settings, filePath, fileName, fileIndex, highVoltage, powerChip),
        acquisition, network, setup, registers)
    }

    predicate Valid()
      reads this
    {
      State().Valid()
    }

    /** `size()`. */
    function Size(): nat
      reads this
    {
      |hostname|
    }

    /** `getShmId()`. */
    function GetShmId(): int {
      shmId
    }

    /** `Detector(shm_id)`: the given id, every field at its default and no frame to
        deliver. */
    constructor (shmId: int)
      ensures Valid() && State() == Initial(shmId) && GetShmId() == shmId
    {
      var d := Initial(shmId);
      this.shmId := shmId;
      hostname := d.hostname;
      settings := d.modules.settings;
      filePath := d.modules.filePath;
      fileName := d.modules.fileName;
      fileIndex := d.modules.fileIndex;
      highVoltage := d.modules.highVoltage;
      powerChip := d.modules.powerChip;
      acquisition := d.acquisition;
      network := d.network;
      setup := d.setup;
      registers := d.registers;
    }

    /** Takes over a state computed by the command interpreter. */
    method Load(t: DetectorState)
      requires t.shmId == shmId
      modifies this
      ensures State() == t
    {
      hostname := t.hostname;
      settings := t.modules.settings;
      filePath := t.modules.filePath;
      fileName := t.modules.fileName;
      fileIndex := t.modules.fileIndex;
      highVoltage := t.modules.highVoltage;
      powerChip := t.modules.powerChip;
      acquisition := t.acquisition;
      network := t.network;
      setup := t.setup;
      registers := t.registers;
      assert t.modules == ModuleVectors(settings, filePath, fileName, fileIndex, highVoltage, powerChip);
    }

    /** `freeSharedMemory()`. */
    method FreeSharedMemory()
      modifies this
      ensures Valid() && State() == Defaults(old(State()))
    {
      ghost var d := Defaults(State());
      var extsig := [];
      for i := 0 to NUM_EXTSIG
        invariant extsig == seq(i, _ => EXTSIG_DEFAULT)
      {
        extsig := extsig + [EXTSIG_DEFAULT];
      }
      hostname := [];
      network := Network(
        port := DEFAULT_PORT, stopPort := DEFAULT_STOP_PORT, udpSrcIp := "", udpSrcMac := "",
        rxHostname := "", rxTcpPort := SLS_RX_DEFAULT_PORT, udpDstIp := "",
        udpDstPort := DEFAULT_UDP_DST_PORT);
      settings := [];
      filePath := [];
      fileName := [];
      fileIndex := [];
      acquisition := Acquisition(
        status := Idle, exposureNs := DEFAULT_EXPTIME_NS, periodNs := DEFAULT_PERIOD_NS,
        delayNs := 0, frames := 1, triggers := 1, gates := 1, timing := AutoTiming,
        neededFrames := acquisition.neededFrames);
      setup := Setup(
        detectorType := Generic, writeToFile := false, extsig := extsig, settingsPath := "",
        badChannels := "none");
      highVoltage := [];
      powerChip := [];
      assert ModuleVectors(settings, filePath, fileName, fileIndex, highVoltage, powerChip) == d.modules;
      assert setup == d.setup;
    }

    /** `setHostname(h)`: everything reset, then one module per host. */
    method SetHostname(h: seq<string>)
      modifies this
      ensures Valid() && State() == WithHosts(old(State()), h)
    {
      FreeSharedMemory();
      hostname := h;
      settings := seq(|h|, _ => Uninitialized);
      highVoltage := seq(|h|, _ => 0);
      powerChip := seq(|h|, _ => false);
      filePath := seq(|h|, _ => "/tmp");
      fileName := seq(|h|, _ => "run");
      fileIndex := seq(|h|, _ => 0);
      assert ModuleVectors(settings, filePath, fileName, fileIndex, highVoltage, powerChip) == WithHosts(old(State()), h).modules;
    }

    // ----- per-module getters -----

    method GetHostname(pos: seq<int>) returns (r: Result<seq<string>>)
      ensures r == Gathered(hostname, pos, "Detector::getHostname")
    {
      r := GatherAt(hostname, pos, "Detector::getHostname");
    }

    method GetSettings(pos: seq<int>) returns (r: Result<seq<DetectorSettings>>)
      ensures r == Gathered(settings, pos, "Detector::getSettings")
    {
      r := GatherAt(settings, pos, "Detector::getSettings");
    }

    method GetHighVoltage(pos: seq<int>) returns (r: Result<seq<int>>)
      ensures r == Gathered(highVoltage, pos, "Detector::getHighVoltage")
    {
      r := GatherAt(highVoltage, pos, "Detector::getHighVoltage");
    }

    method GetPowerChip(pos: seq<int>) returns (r: Result<seq<bool>>)
      ensures r == Gathered(powerChip, pos, "Detector::getPowerChip")
    {
      r := GatherAt(powerChip, pos, "Detector::getPowerChip");
    }

    method GetFilePath(pos: seq<int>) returns (r: Result<seq<string>>)
      ensures r == Gathered(filePath, pos, "Detector::getFilePath")
    {
      r := GatherAt(filePath, pos, "Detector::getFilePath");
    }

    method GetFileNamePrefix(pos: seq<int>) returns (r: Result<seq<string>>)
      ensures r == Gathered(fileName, pos, "Detector::getFileName")
    {
      r := GatherAt(fileName, pos, "Detector::getFileName");
    }

    method GetAcquisitionIndex(pos: seq<int>) returns (r: Result<seq<int>>)
      ensures r == Gathered(fileIndex, pos, "Detector::getAcquisitionIndex")
    {
      r := GatherAt(fileIndex, pos, "Detector::getAcquisitionIndex");
    }

    // ----- per-module setters -----

    /** `setSettings(value, pos)`; the others below follow the same pattern. */
    method SetSettings(value: DetectorSettings, pos: seq<int>) returns (r: Result<()>)
      requires Valid()
      modifies this
      ensures Valid()
      ensures State() == old(State()).(modules := old(State()).modules.(settings := Assigned(old(settings), value, pos)))
      ensures r == if SetterThrows(Size(), pos) then Err("Detector::setSettings : position not found!") else Ok(())
    {
      var thrown;
      settings, thrown := AssignAt(settings, value, pos);
      r := if thrown then Err("Detector::setSettings : position not found!") else Ok(());
    }

    method SetHighVoltage(value: int, pos: seq<int>) returns (r: Result<()>)
      requires Valid()
      modifies this
      ensures Valid()
      ensures State() == old(State()).(modules := old(State()).modules.(highVoltage := Assigned(old(highVoltage), value, pos)))
      ensures r == if SetterThrows(Size(), pos) then Err("Detector::setHighVoltage : position not found!") else Ok(())
    {
      var thrown;
      highVoltage, thrown := AssignAt(highVoltage, value, pos);
      r := if thrown then Err("Detector::setHighVoltage : position not found!") else Ok(());
    }

    method SetPowerChip(on: bool, pos: seq<int>) returns (r: Result<()>)
      requires Valid()
      modifies this
      ensures Valid()
      ensures State() == old(State()).(modules := old(State()).modules.(powerChip := Assigned(old(powerChip), on, pos)))
      ensures r == if SetterThrows(Size(), pos) then Err("Detector::setPowerChip : position not found!") else Ok(())
    {
      var thrown;
      powerChip, thrown := AssignAt(powerChip, on, pos);
      r := if thrown then Err("Detector::setPowerChip : position not found!") else Ok(());
    }

    method SetFilePath(fpath: string, pos: seq<int>) returns (r: Result<()>)
      requires Valid()
      modifies this
      ensures Valid()
      ensures State() == old(State()).(modules := old(State()).modules.(filePath := Assigned(old(filePath), fpath, pos)))
      ensures r == if SetterThrows(Size(), pos) then Err("Detector::setFilePath : position not found!") else Ok(())
    {
      var thrown;
      filePath, thrown := AssignAt(filePath, fpath, pos);
      r := if thrown then Err("Detector::setFilePath : position not found!") else Ok(());
    }

    method SetFileNamePrefix(fname: string, pos: seq<int>) returns (r: Result<()>)
      requires Valid()
      modifies this
      ensures Valid()
      ensures State() == old(State()).(modules := old(State()).modules.(fileName := Assigned(old(fileName), fname, pos)))
      ensures r == if SetterThrows(Size(), pos) then Err("Detector::setFileName : position not found!") else Ok(())
    {
      var thrown;
      fileName, thrown := AssignAt(fileName, fname, pos);
      r := if thrown then Err("Detector::setFileName : position not found!") else Ok(());
    }

    method SetAcquisitionIndex(i: int, pos: seq<int>) returns (r: Result<()>)
      requires Valid()
      modifies this
      ensures Valid()
      ensures State() == old(State()).(modules := old(State()).modules.(fileIndex := Assigned(old(fileIndex), i, pos)))
      ensures r == if SetterThrows(Size(), pos) then Err("Detector::setAcquisitionIndex : position not found!") else Ok(())
    {
      var thrown;
      fileIndex, thrown := AssignAt(fileIndex, i, pos);
      r := if thrown then Err("Detector::setAcquisitionIndex : position not found!") else Ok(());
    }

    // ----- detector-wide values -----

    /** `getNumberOfFrames(pos)` and the other detector-wide getters: one value for the
        default list, one copy per listed position otherwise. */
    function GetNumberOfFrames(pos: seq<int>): seq<int>
      reads this
    {
      OneOrPerPosition(acquisition.frames, pos)
    }

    function GetNumberOfTriggers(pos: seq<int>): seq<int>
      reads this
    {
      OneOrPerPosition(acquisition.triggers, pos)
    }

    function GetNumberOfGates(pos: seq<int>): seq<int>
      reads this
    {
      OneOrPerPosition(acquisition.gates, pos)
    }

    function GetExptime(pos: seq<int>): seq<int>
      reads this
    {
      OneOrPerPosition(acquisition.exposureNs, pos)
    }

    function GetPeriod(pos: seq<int>): seq<int>
      reads this
    {
      OneOrPerPosition(acquisition.periodNs, pos)
    }

    function GetDelayAfterTrigger(pos: seq<int>): seq<int>
      reads this
    {
      OneOrPerPosition(acquisition.delayNs, pos)
    }

    function GetTimingMode(pos: seq<int>): seq<TimingMode>
      reads this
    {
      OneOrPerPosition(acquisition.timing, pos)
    }

    function GetDetectorStatus(pos: seq<int>): seq<RunStatus>
      reads this
    {
      OneOrPerPosition(acquisition.status, pos)
    }

    function GetDetectorType(pos: seq<int>): seq<DetectorType>
      reads this
    {
      OneOrPerPosition(setup.detectorType, pos)
    }

    /** `setNumberOfFrames(value)`: a negative count is ignored. */
    method SetNumberOfFrames(value: int)
      modifies this
      ensures State() == old(State()).(acquisition := old(acquisition).(frames := IfNonNegative(old(acquisition.frames), value)))
    {
      if value >= 0 {
        acquisition := acquisition.(frames := value);
      }
    }

    method SetNumberOfTriggers(value: int)
      modifies this
      ensures State() == old(State()).(acquisition := old(acquisition).(triggers := IfNonNegative(old(acquisition.triggers), value)))
    {
      if value >= 0 {
        acquisition := acquisition.(triggers := value);
      }
    }

    method SetNumberOfGates(value: int)
      modifies this
      ensures State() == old(State()).(acquisition := old(acquisition).(gates := IfNonNegative(old(acquisition.gates), value)))
    {
      if value >= 0 {
        acquisition := acquisition.(gates := value);
      }
    }

    /** `setExptime(t, pos)`: one exposure time for the whole detector, whatever `pos`. */
    method SetExptime(t: int, pos: seq<int>)
      modifies this
      ensures State() == old(State()).(acquisition := old(acquisition).(exposureNs := t))
    {
      acquisition := acquisition.(exposureNs := t);
    }

    method SetPeriod(t: int, pos: seq<int>)
      modifies this
      ensures State() == old(State()).(acquisition := old(acquisition).(periodNs := t))
    {
      acquisition := acquisition.(periodNs := t);
    }

    method SetDelayAfterTrigger(t: int, pos: seq<int>)
      modifies this
      ensures State() == old(State()).(acquisition := old(acquisition).(delayNs := t))
    {
      acquisition := acquisition.(delayNs := t);
    }

    method SetTimingMode(value: TimingMode, pos: seq<int>)
      modifies this
      ensures State() == old(State()).(acquisition := old(acquisition).(timing := value))
    {
      acquisition := acquisition.(timing := value);
    }

    /** `setDetectorType(type)`: stores and answers the type. */
    method SetDetectorType(t: DetectorType) returns (r: DetectorType)
      modifies this
      ensures r == t
      ensures State() == old(State()).(setup := old(setup).(detectorType := t))
    {
      setup := setup.(detectorType := t);
      r := t;
    }

    /** `setRxHostname(h)`. */
    method SetRxHostname(h: string)
      modifies this
      ensures State() == old(State()).(network := old(network).(rxHostname := h))
    {
      network := network.(rxHostname := h);
    }

    /** `getSettingsList()`, `getTimingModeList()`, `getTemperatureList()`. */
    function GetSettingsList(): seq<DetectorSettings>
      reads this
    {
      SettingsList(setup.detectorType)
    }

    function GetTimingModeList(): seq<TimingMode>
      reads this
    {
      TimingModeList(setup.detectorType)
    }

    function GetTemperatureList(): seq<DacIndex>
      reads this
    {
      TemperatureList(setup.detectorType)
    }

    // ----- registers -----

    /** `readRegister(addr, pos)`: one copy per listed position of the value last written, or
        of 0 for an address never written. */
    function ReadRegister(addr: u32, pos: seq<int>): seq<u32>
      reads this
    {
      PerPosition(RegisterValue(State(), addr), pos)
    }

    /** `writeRegister(addr, val, pos)`: one register file for all modules, whatever `pos`. */
    method WriteRegister(addr: u32, val: u32, pos: seq<int>)
      modifies this
      ensures State() == WithRegister(old(State()), addr, val)
    {
      registers := registers[addr := val];
    }

    // ----- acquisition -----

    /** `stopDetector()`: IDLE, and the file index of every module advanced by one. */
    method StopDetector()
      requires Valid()
      modifies this
      ensures Valid() && State() == DetectorModel.StopDetector(old(State()))
    {
      acquisition := acquisition.(status := Idle);
      var i := 0;
      while i < Size()
        invariant 0 <= i <= Size() && |fileIndex| == Size()
        invariant State() == old(State()).(acquisition := acquisition, modules := old(State()).modules.(fileIndex := fileIndex))
        invariant acquisition == old(acquisition).(status := Idle)
        invariant forall k | 0 <= k < i :: fileIndex[k] == old(fileIndex[k]) + 1
        invariant forall k | i <= k < Size() :: fileIndex[k] == old(fileIndex[k])
      {
        fileIndex := fileIndex[i := fileIndex[i] + 1];
        i := i + 1;
      }
    }

    /** `startMeasurementNoWait()` (the counter part): the frames to deliver and RUNNING. */
    method StartMeasurementNoWait()
      modifies this
      ensures State() == DetectorModel.StartMeasurement(old(State()))
    {
      acquisition := acquisition.(
        neededFrames := acquisition.frames * Max1(acquisition.gates) * Max1(acquisition.triggers),
        status := Running);
    }

    /** One pass of `dataWorker`. */
    method DataWorkerStep()
      requires Valid()
      modifies this
      ensures Valid() && State() == DataStep(old(State()))
    {
      if acquisition.status == Running && acquisition.neededFrames <= 0 {
        StopDetector();
      } else if acquisition.status == Running {
        acquisition := acquisition.(neededFrames := acquisition.neededFrames - 1);
      }
    }

    // ----- the command language -----

    /** `putCommand(narg, args)`: the reply, or the exception thrown. */
    method PutCommand(args: seq<string>) returns (reply: Result<string>)
      requires Valid()
      modifies this
      ensures Valid()
      ensures (State(), reply) == Put(old(State()), args)
    {
      var t;
      t, reply := Put(State(), args).0, Put(State(), args).1;
      Load(t);
    }

    /** `getCommand(narg, args)`. */
    method GetCommand(args: seq<string>) returns (reply: Result<string>)
      requires Valid()
      modifies this
      ensures Valid()
      ensures (State(), reply) == Get(old(State()), args)
    {
      var t;
      t, reply := Get(State(), args).0, Get(State(), args).1;
      Load(t);
    }

    /** `loadParameters(parameters)`: each line split at white space and run through
        putCommand, stopping at the first exception. */
    method LoadParameters(parameters: seq<string>) returns (r: Result<()>)
      requires Valid()
      modifies this
      ensures Valid()
      ensures (State(), r) == LoadLines(old(State()), parameters)
    {
      var k := 0;
      while k < |parameters|
        invariant 0 <= k <= |parameters| && Valid()
        invariant LoadLines(State(), parameters[k..]) == LoadLines(old(State()), parameters)
      {
        assert parameters[k..][1..] == parameters[k + 1..];
        var reply := PutCommand(Split(parameters[k], IsSpace));
        if reply.Err? {
          return Err(reply.message);
        }
        k := k + 1;
      }
      return Ok(());
    }

    /** `dumpDetectorSetup(fname)`: 1 when the file cannot be opened, otherwise 0 and the
        file holds the setup lines, each ended by `std::endl`. */
    method DumpDetectorSetup(isOpen: bool) returns (code: int, text: string)
      requires Valid()
      ensures code == (if isOpen then 0 else 1)
      ensures text == (if isOpen then Terminated(SetupLines(State()), "\n") else "")
    {
      if !isOpen {
        return 1, "";
      }
      var hosts := HostField();
      var signals := ExtSigLines();
      var modules := ModuleLines();
      var common := FrontSetup(State()) + signals + BackSetup(State());
      assert common == CommonSetup(State());
      var lines := [SetupLine(Hostname, hosts)] + common + modules;
      assert lines == SetupLines(State());
      return 0, Terminated(lines, "\n");
    }

    /** The host list of the setup file: every host followed by '+'. */
    method HostField() returns (hosts: string)
      ensures hosts == Terminated(hostname, "+")
    {
      hosts := "";
      var i := 0;
      while i < |hostname|
        invariant 0 <= i <= |hostname|
        invariant hosts == Terminated(hostname[..i], "+")
      {
        TerminatedSnoc(hostname[..i], hostname[i], "+");
        assert hostname[..i + 1] == hostname[..i] + [hostname[i]];
        hosts := hosts + hostname[i] + "+";
        i := i + 1;
      }
      assert hostname[..i] == hostname;
    }

    /** The four extsig lines of the setup file. */
    method ExtSigLines() returns (lines: seq<string>)
      requires Valid()
      ensures lines == ExtSigSetup(State())
    {
      lines := [];
      var j := 0;
      while j < NUM_EXTSIG
        invariant 0 <= j <= NUM_EXTSIG
        invariant lines == ExtSigSetup(State())[..j]
      {
        lines := lines + [SetupLine(ExtSig, IntToString(j) + " " + setup.extsig[j])];
        j := j + 1;
      }
    }

    /** The module blocks of the setup file, module by module. */
    method ModuleLines() returns (lines: seq<string>)
      requires Valid()
      ensures lines == ModuleSetups(State(), Size())
    {
      var s := State();
      lines := [];
      var k := 0;
      while k < |hostname|
        invariant 0 <= k <= |hostname| == s.Size()
        invariant lines == ModuleSetups(s, k)
      {
        lines := lines + ModuleSetup(s, k);
        k := k + 1;
      }
    }

    /** `retrieveDetectorSetup(fname)`: every line of the file, up to the empty one read at
        its end, goes through putCommand; an exception thrown there propagates, and the reply
        is 0 whether or not the file could be opened. */
    method RetrieveDetectorSetup(file: Option<string>) returns (r: Result<int>)
      requires Valid()
      modifies this
      ensures Valid()
      ensures file.None? ==> State() == old(State()) && r == Ok(0)
      ensures file.Some? ==>
        var l := LoadLines(old(State()), Split(file.value, IsNewline));
        State() == l.0 && r == (if l.1.Err? then Err(l.1.message) else Ok(0))
    {
      if file.None? {
        return Ok(0);
      }
      var loaded := LoadParameters(Split(file.value, IsNewline));
      if loaded.Err? {
        return Err(loaded.message);
      }
      return Ok(0);
    }
  }

  /** The lines of a parameter list run one after the other through putCommand. */
  function LoadLines(s: DetectorState, lines: seq<string>): (r: (DetectorState, Result<()>))
    requires s.Valid()
    ensures r.0.Valid() && r.0.shmId == s.shmId
    decreases |lines|
  {
    if lines == [] then (s, Ok(()))
    else
      var p := Put(s, Split(lines[0], IsSpace));
      if p.1.Err? then (p.0, Err(p.1.message)) else LoadLines(p.0, lines[1..])
  }

  /** Loading one list of lines after another is loading them all, unless the first list
      throws. */
  lemma {:induction false} LoadLinesAppend(s: DetectorState, a: seq<string>, b: seq<string>)
    requires s.Valid()
    ensures LoadLines(s, a + b)
            == (var ra := LoadLines(s, a); if ra.1.Err? then ra else LoadLines(ra.0, b))
    decreases |a|
  {
    if a == [] {
      assert a + b == b;
    } else {
      assert (a + b)[0] == a[0];
      assert (a + b)[1..] == a[1..] + b;
      var p := Put(s, Split(a[0], IsSpace));
      if p.1.Ok? {
        LoadLinesAppend(p.0, a[1..], b);
      }
    }
  }

  // ----- dumpDetectorSetup and retrieveDetectorSetup -----

  /** "i:name value": the line that sets a parameter of module i. */
  function ModuleSetupLine(i: nat, k: Keyword, value: string): string {
    IntToString(i) + ":" + KeywordName(k) + " " + value
  }

  /** The block of module i in the setup file. */
  function ModuleSetup(s: DetectorState, i: nat): seq<string>
    requires s.Valid() && i < s.Size()
  {
    [ModuleSetupLine(i, Settings, SettingsName(s.modules.settings[i])),
     ModuleSetupLine(i, HighVoltage, IntToString(s.modules.highVoltage[i])),
     ModuleSetupLine(i, FPath, s.modules.filePath[i]),
     ModuleSetupLine(i, FName, s.modules.fileName[i]),
     ModuleSetupLine(i, FIndex, IntToString(s.modules.fileIndex[i]))]
  }

  /** The blocks of modules 0 .. k-1, in order. */
  function ModuleSetups(s: DetectorState, k: nat): seq<string>
    requires s.Valid() && k <= s.Size()
  {
    if k == 0 then [] else ModuleSetups(s, k - 1) + ModuleSetup(s, k - 1)
  }

  /** A detector-wide line of the setup file: the parameter word, a space, the value. */
  function SetupLine(k: Keyword, value: string): string {
    KeywordName(k) + " " + value
  }

  /** The lines before the extsig lines ... */
  function FrontSetup(s: DetectorState): seq<string> {
    [SetupLine(Port, IntToString(s.network.port)),
     SetupLine(StopPort, IntToString(s.network.stopPort)),
     SetupLine(RxTcpPort, IntToString(s.network.rxTcpPort)),
     SetupLine(SettingsPath, s.setup.settingsPath)]
  }

  /** ... "extsig i signal" for the four external signals ... */
  function ExtSigSetup(s: DetectorState): seq<string>
    requires s.Valid()
  {
    seq(NUM_EXTSIG, i requires 0 <= i < NUM_EXTSIG => SetupLine(ExtSig, IntToString(i) + " " + s.setup.extsig[i]))
  }

  /** ... and the lines after them. */
  function BackSetup(s: DetectorState): seq<string> {
    [SetupLine(UdpSrcIp, s.network.udpSrcIp),
     SetupLine(UdpSrcMac, s.network.udpSrcMac),
     SetupLine(UdpDstPort, IntToString(s.network.udpDstPort)),
     SetupLine(UdpDstIp, s.network.udpDstIp),
     SetupLine(RxHostname, s.network.rxHostname),
     SetupLine(BadChannels, s.setup.badChannels)]
  }

  /** The detector-wide lines that follow the host list. */
  function CommonSetup(s: DetectorState): seq<string>
    requires s.Valid()
  {
    FrontSetup(s) + ExtSigSetup(s) + BackSetup(s)
  }

  /** The lines `dumpDetectorSetup` writes, each ended by `std::endl`: the host list, every
      host followed by '+', the detector-wide parameters, then one block per module. */
  function SetupLines(s: DetectorState): seq<string>
    requires s.Valid()
  {
    [SetupLine(Hostname, Terminated(s.hostname, "+"))] + CommonSetup(s) + ModuleSetups(s, s.Size())
  }

  /** The states whose setup file reads back: there are modules and no more than an `int`
      counts, host names are non-empty and hold neither '+' nor white space, the numbers fit
      the C++ types that hold them, file paths and names hold no white space, and no text
      holds a line break. */
  predicate Dumpable(s: DetectorState) {
    && ModulesReadBack(s) && HostNames(s.hostname)
    && (forall i | 0 <= i < s.Size() :: NoneOf(s.hostname[i], IsSpace))
    && PortsFit(s) && NoLineBreaks(s)
  }

  /** The port numbers fit the `int` that `std::stoi` gives. */
  predicate PortsFit(s: DetectorState) {
    IsInt32(s.network.port) && IsInt32(s.network.stopPort)
    && IsInt32(s.network.rxTcpPort) && IsInt32(s.network.udpDstPort)
  }

  /** The detector-wide texts of the setup file hold no line break. */
  predicate NoLineBreaks(s: DetectorState)
    requires s.Valid()
  {
    && NoneOf(s.setup.settingsPath, IsNewline) && NoneOf(s.setup.badChannels, IsNewline)
    && (forall i | 0 <= i < NUM_EXTSIG :: NoneOf(s.setup.extsig[i], IsNewline))
    && NoneOf(s.network.udpSrcIp, IsNewline) && NoneOf(s.network.udpSrcMac, IsNewline)
    && NoneOf(s.network.udpDstIp, IsNewline) && NoneOf(s.network.rxHostname, IsNewline)
  }

  /** A line that, run through putCommand on any state, throws nothing and leaves the host
      list and every module as they were. */
  ghost predicate KeepsModules(line: string) {
    forall u: DetectorState {:trigger Put(u, Split(line, IsSpace))} | u.Valid() ::
      && Put(u, Split(line, IsSpace)).1.Ok?
      && Put(u, Split(line, IsSpace)).0.hostname == u.hostname
      && Put(u, Split(line, IsSpace)).0.modules == u.modules
  }

  lemma {:induction false} LoadKeeping(u: DetectorState, lines: seq<string>)
    requires u.Valid() && forall i | 0 <= i < |lines| :: KeepsModules(lines[i])
    ensures LoadLines(u, lines).1 == Ok(())
    ensures LoadLines(u, lines).0.hostname == u.hostname && LoadLines(u, lines).0.modules == u.modules
    decreases |lines|
  {
    if lines != [] {
      var p := Put(u, Split(lines[0], IsSpace));
      assert p.1.Ok? && p.0.hostname == u.hostname && p.0.modules == u.modules by {
        assert KeepsModules(lines[0]);
      }
      LoadKeeping(p.0, lines[1..]);
      assert LoadLines(u, lines) == LoadLines(p.0, lines[1..]);
    }
  }

  /** "word value" for a parameter putCommand keeps as text somewhere outside the modules. */
  lemma TextLineKeeps(k: Keyword, v: string)
    requires k in {SettingsPath, UdpSrcIp, UdpSrcMac, UdpDstIp, RxHostname, BadChannels}
    ensures KeepsModules(SetupLine(k, v))
  {
    forall u: DetectorState | u.Valid()
      ensures Put(u, Split(SetupLine(k, v), IsSpace)).1.Ok?
      ensures Put(u, Split(SetupLine(k, v), IsSpace)).0.hostname == u.hostname
      ensures Put(u, Split(SetupLine(k, v), IsSpace)).0.modules == u.modules
    {
      TextLinePut(u, k, v);
    }
  }

  lemma TextLinePut(u: DetectorState, k: Keyword, v: string)
    requires u.Valid() && k in {SettingsPath, UdpSrcIp, UdpSrcMac, UdpDstIp, RxHostname, BadChannels}
    ensures Put(u, Split(SetupLine(k, v), IsSpace)).1.Ok?
    ensures Put(u, Split(SetupLine(k, v), IsSpace)).0.hostname == u.hostname
    ensures Put(u, Split(SetupLine(k, v), IsSpace)).0.modules == u.modules
  {
    var word := KeywordName(k);
    PlainKeyword(k);
    KeywordNames(k);
    SetupLineWords(k, v);
    PutPlain(u, word, Split(v, IsSpace));
    TextParameterKeeps(u, k, CommandValue([word] + Split(v, IsSpace)), Split(v, IsSpace));
  }

  /** "word n" for a port number that fits an `int`. */
  lemma NumberLineKeeps(k: Keyword, n: int)
    requires k in {Port, StopPort, RxTcpPort, UdpDstPort} && IsInt32(n)
    ensures KeepsModules(SetupLine(k, IntToString(n)))
  {
    forall u: DetectorState | u.Valid()
      ensures Put(u, Split(SetupLine(k, IntToString(n)), IsSpace)).1.Ok?
      ensures Put(u, Split(SetupLine(k, IntToString(n)), IsSpace)).0.hostname == u.hostname
      ensures Put(u, Split(SetupLine(k, IntToString(n)), IsSpace)).0.modules == u.modules
    {
      NumberLinePut(u, k, n);
    }
  }

  lemma NumberLinePut(u: DetectorState, k: Keyword, n: int)
    requires u.Valid() && k in {Port, StopPort, RxTcpPort, UdpDstPort} && IsInt32(n)
    ensures Put(u, Split(SetupLine(k, IntToString(n)), IsSpace)).1.Ok?
    ensures Put(u, Split(SetupLine(k, IntToString(n)), IsSpace)).0.hostname == u.hostname
    ensures Put(u, Split(SetupLine(k, IntToString(n)), IsSpace)).0.modules == u.modules
  {
    var word := KeywordName(k);
    var v := IntToString(n);
    PlainKeyword(k);
    KeywordNames(k);
    IntToStringNoSpace(n);
    SetupLineWords(k, v);
    SplitNoSeparator(v, IsSpace);
    assert [word] + [v] == [word, v];
    PutSingleValue(u, word, v);
    StoIRoundTrip(n);
    NumberParameterKeeps(u, k, v, [v]);
  }

  /** "extsig i signal" for a signal number 0 .. 3. */
  lemma ExtSigLineKeeps(i: nat, v: string)
    requires i < NUM_EXTSIG
    ensures KeepsModules(SetupLine(ExtSig, IntToString(i) + " " + v))
  {
    forall u: DetectorState | u.Valid()
      ensures Put(u, Split(SetupLine(ExtSig, IntToString(i) + " " + v), IsSpace)).1.Ok?
      ensures Put(u, Split(SetupLine(ExtSig, IntToString(i) + " " + v), IsSpace)).0.hostname == u.hostname
      ensures Put(u, Split(SetupLine(ExtSig, IntToString(i) + " " + v), IsSpace)).0.modules == u.modules
    {
      ExtSigLinePut(u, i, v);
    }
  }

  lemma ExtSigLinePut(u: DetectorState, i: nat, v: string)
    requires u.Valid() && i < NUM_EXTSIG
    ensures Put(u, Split(SetupLine(ExtSig, IntToString(i) + " " + v), IsSpace)).1.Ok?
    ensures Put(u, Split(SetupLine(ExtSig, IntToString(i) + " " + v), IsSpace)).0.hostname == u.hostname
    ensures Put(u, Split(SetupLine(ExtSig, IntToString(i) + " " + v), IsSpace)).0.modules == u.modules
  {
    var word := KeywordName(ExtSig);
    var d := IntToString(i);
    var rest := [d] + Split(v, IsSpace);
    PlainKeyword(ExtSig);
    KeywordNames(ExtSig);
    IntToStringNoSpace(i);
    assert d + " " + v == d + [' '] + v;
    SplitAppend(d, v, ' ', IsSpace);
    SetupLineWords(ExtSig, d + " " + v);
    PutPlain(u, word, rest);
    ExtSigPut(u, CommandValue([word] + rest), i, rest);
  }

  /** "extsig i ..." with a signal number 0 .. 3 throws nothing and leaves the hosts and
      modules alone. */
  lemma ExtSigPut(u: DetectorState, value: string, i: nat, rest: seq<string>)
    requires u.Valid() && i < NUM_EXTSIG && rest != [] && rest[0] == IntToString(i)
    ensures PutParameter(u, ExtSig, -1, value, rest).1.Ok?
    ensures PutParameter(u, ExtSig, -1, value, rest).0.hostname == u.hostname
    ensures PutParameter(u, ExtSig, -1, value, rest).0.modules == u.modules
  {
    StoIRoundTrip(i);
  }

  /** A setup line splits into its parameter word and the words of its value. */
  lemma SetupLineWords(k: Keyword, v: string)
    requires PlainWord(KeywordName(k))
    ensures Split(SetupLine(k, v), IsSpace) == [KeywordName(k)] + Split(v, IsSpace)
  {
    assert SetupLine(k, v) == KeywordName(k) + [' '] + v;
    SplitAppend(KeywordName(k), v, ' ', IsSpace);
  }

  /** The parameter words of the setup file hold neither white space nor ':'. */
  lemma PlainKeyword(k: Keyword)
    requires k in {Hostname, SettingsPath, Port, StopPort, RxTcpPort, ExtSig, UdpSrcIp, UdpSrcMac, UdpDstPort, UdpDstIp, RxHostname, BadChannels, Settings, HighVoltage, FPath, FName, FIndex}
    ensures PlainWord(KeywordName(k))
  {
    if k in {Hostname, SettingsPath, Port, StopPort} {
      PlainKeyword1(k);
    }
    if k in {RxTcpPort, ExtSig, UdpSrcIp, UdpSrcMac} {
      PlainKeyword2(k);
    }
    if k in {UdpDstPort, UdpDstIp, RxHostname, BadChannels} {
      PlainKeyword3(k);
    }
    if k in {Settings, HighVoltage, FPath} {
      PlainKeyword4(k);
    }
    if k in {FName, FIndex} {
      PlainKeyword5(k);
    }
  }

  /** `PlainKeyword` for Hostname, SettingsPath, Port and StopPort. */
  lemma PlainKeyword1(k: Keyword)
    requires k in {Hostname, SettingsPath, Port, StopPort}
    ensures PlainWord(KeywordName(k))
  {
    match k
    case Hostname => LowerWord(KeywordName(k));
    case SettingsPath => LowerWord(KeywordName(k));
    case Port => LowerWord(KeywordName(k));
    case StopPort => LowerWord(KeywordName(k));
    case _ => assert false;
  }

  /** `PlainKeyword` for RxTcpPort, ExtSig, UdpSrcIp and UdpSrcMac. */
  lemma PlainKeyword2(k: Keyword)
    requires k in {RxTcpPort, ExtSig, UdpSrcIp, UdpSrcMac}
    ensures PlainWord(KeywordName(k))
  {
    match k
    case RxTcpPort => LowerWord(KeywordName(k));
    case ExtSig => LowerWord(KeywordName(k));
    case UdpSrcIp => LowerWord(KeywordName(k));
    case UdpSrcMac => LowerWord(KeywordName(k));
    case _ => assert false;
  }

  /** `PlainKeyword` for UdpDstPort, UdpDstIp, RxHostname and BadChannels. */
  lemma PlainKeyword3(k: Keyword)
    requires k in {UdpDstPort, UdpDstIp, RxHostname, BadChannels}
    ensures PlainWord(KeywordName(k))
  {
    match k
    case UdpDstPort => LowerWord(KeywordName(k));
    case UdpDstIp => LowerWord(KeywordName(k));
    case RxHostname => LowerWord(KeywordName(k));
    case BadChannels => LowerWord(KeywordName(k));
    case _ => assert false;
  }

  /** `PlainKeyword` for Settings, HighVoltage and FPath. */
  lemma PlainKeyword4(k: Keyword)
    requires k in {Settings, HighVoltage, FPath}
    ensures PlainWord(KeywordName(k))
  {
    match k
    case Settings => LowerWord(KeywordName(k));
    case HighVoltage => LowerWord(KeywordName(k));
    case FPath => LowerWord(KeywordName(k));
    case _ => assert false;
  }

  /** `PlainKeyword` for FName and FIndex. */
  lemma PlainKeyword5(k: Keyword)
    requires k in {FName, FIndex}
    ensures PlainWord(KeywordName(k))
  {
    match k
    case FName => LowerWord(KeywordName(k));
    case FIndex => LowerWord(KeywordName(k));
    case _ => assert false;
  }

  /** A word of lower-case letters, digits and '_' is a plain parameter word. */
  lemma LowerWord(w: string)
    requires forall i | 0 <= i < |w| :: 'a' <= w[i] <= 'z' || '0' <= w[i] <= '9' || w[i] == '_'
    ensures PlainWord(w)
  {
    FindFirstIsFirst(w, ':');
  }

  /** The setup-file parameters kept as text outside the modules: set for all positions,
      they throw nothing and leave the host list and the modules alone. */
  lemma TextParameterKeeps(u: DetectorState, k: Keyword, value: string, rest: seq<string>)
    requires u.Valid() && k in {SettingsPath, UdpSrcIp, UdpSrcMac, UdpDstIp, RxHostname, BadChannels}
    ensures PutParameter(u, k, -1, value, rest).1.Ok?
    ensures PutParameter(u, k, -1, value, rest).0.hostname == u.hostname
    ensures PutParameter(u, k, -1, value, rest).0.modules == u.modules
  {
    match k
    case SettingsPath =>
    case UdpSrcIp =>
    case UdpSrcMac =>
    case UdpDstIp =>
    case RxHostname =>
    case BadChannels =>
    case _ => assert false;
  }

  /** The same for the port numbers, when the number reads. */
  lemma NumberParameterKeeps(u: DetectorState, k: Keyword, value: string, rest: seq<string>)
    requires u.Valid() && k in {Port, StopPort, RxTcpPort, UdpDstPort} && StoI(value).Some?
    ensures PutParameter(u, k, -1, value, rest).1.Ok?
    ensures PutParameter(u, k, -1, value, rest).0.hostname == u.hostname
    ensures PutParameter(u, k, -1, value, rest).0.modules == u.modules
  {
    match k
    case Port =>
    case StopPort =>
    case RxTcpPort =>
    case UdpDstPort =>
    case _ => assert false;
  }

  /** The settings names hold no white space. */
  lemma SettingsNameClean(x: DetectorSettings)
    ensures NoneOf(SettingsName(x), IsSpace)
  {
    if x in {Standard, Fast, HighGain, DynamicGain, LowGain, MediumGain} {
      SettingsNameClean1(x);
    }
    if x in {VeryHighGain, DynamicHG0, FixGain1, FixGain2, ForceSwitchG1, ForceSwitchG2} {
      SettingsNameClean2(x);
    }
    if x in {VeryLowGain, G1HighGain, G1LowGain, G2HighCapHighGain, G2HighCapLowGain, G2LowCapHighGain} {
      SettingsNameClean3(x);
    }
    if x in {G2LowCapLowGain, G4HighGain, G4LowGain, Undefined, Uninitialized} {
      SettingsNameClean4(x);
    }
  }

  /** `SettingsNameClean` for Standard, Fast, HighGain, DynamicGain, LowGain and MediumGain. */
  lemma SettingsNameClean1(x: DetectorSettings)
    requires x in {Standard, Fast, HighGain, DynamicGain, LowGain, MediumGain}
    ensures NoneOf(SettingsName(x), IsSpace)
  {
    match x
    case Standard => LowerWord(SettingsName(x));
    case Fast => LowerWord(SettingsName(x));
    case HighGain => LowerWord(SettingsName(x));
    case DynamicGain => LowerWord(SettingsName(x));
    case LowGain => LowerWord(SettingsName(x));
    case MediumGain => LowerWord(SettingsName(x));
    case _ => assert false;
  }

  /** `SettingsNameClean` for VeryHighGain, DynamicHG0, FixGain1, FixGain2, ForceSwitchG1 and ForceSwitchG2. */
  lemma SettingsNameClean2(x: DetectorSettings)
    requires x in {VeryHighGain, DynamicHG0, FixGain1, FixGain2, ForceSwitchG1, ForceSwitchG2}
    ensures NoneOf(SettingsName(x), IsSpace)
  {
    match x
    case VeryHighGain => LowerWord(SettingsName(x));
    case DynamicHG0 => LowerWord(SettingsName(x));
    case FixGain1 => LowerWord(SettingsName(x));
    case FixGain2 => LowerWord(SettingsName(x));
    case ForceSwitchG1 => LowerWord(SettingsName(x));
    case ForceSwitchG2 => LowerWord(SettingsName(x));
    case _ => assert false;
  }

  /** `SettingsNameClean` for VeryLowGain, G1HighGain, G1LowGain, G2HighCapHighGain, G2HighCapLowGain and G2LowCapHighGain. */
  lemma SettingsNameClean3(x: DetectorSettings)
    requires x in {VeryLowGain, G1HighGain, G1LowGain, G2HighCapHighGain, G2HighCapLowGain, G2LowCapHighGain}
    ensures NoneOf(SettingsName(x), IsSpace)
  {
    match x
    case VeryLowGain => LowerWord(SettingsName(x));
    case G1HighGain => LowerWord(SettingsName(x));
    case G1LowGain => LowerWord(SettingsName(x));
    case G2HighCapHighGain => LowerWord(SettingsName(x));
    case G2HighCapLowGain => LowerWord(SettingsName(x));
    case G2LowCapHighGain => LowerWord(SettingsName(x));
    case _ => assert false;
  }

  /** `SettingsNameClean` for G2LowCapLowGain, G4HighGain, G4LowGain, Undefined and Uninitialized. */
  lemma SettingsNameClean4(x: DetectorSettings)
    requires x in {G2LowCapLowGain, G4HighGain, G4LowGain, Undefined, Uninitialized}
    ensures NoneOf(SettingsName(x), IsSpace)
  {
    match x
    case G2LowCapLowGain => LowerWord(SettingsName(x));
    case G4HighGain => LowerWord(SettingsName(x));
    case G4LowGain => LowerWord(SettingsName(x));
    case Undefined => LowerWord(SettingsName(x));
    case Uninitialized => LowerWord(SettingsName(x));
    case _ => assert false;
  }

  /** Hosts followed by '+' hold white space only where a host does. */
  lemma {:induction false} TerminatedClean(parts: seq<string>, suffix: string, isSep: char -> bool)
    requires NoneOf(suffix, isSep) && forall i | 0 <= i < |parts| :: NoneOf(parts[i], isSep)
    ensures NoneOf(Terminated(parts, suffix), isSep)
    decreases |parts|
  {
    if parts != [] {
      TerminatedClean(parts[1..], suffix, isSep);
      var t := Terminated(parts[1..], suffix);
      assert Terminated(parts, suffix) == parts[0] + suffix + t;
      assert forall i | 0 <= i < |parts[0] + suffix + t| ::
        (parts[0] + suffix + t)[i] == if i < |parts[0]| then parts[0][i]
                                      else if i < |parts[0]| + |suffix| then suffix[i - |parts[0]|]
                                      else t[i - |parts[0]| - |suffix|];
    }
  }

  /** The first line of the setup file configures the dumped hosts, with fresh modules. */
  lemma HostLineLoads(t: DetectorState, hosts: seq<string>)
    requires t.Valid() && hosts != [] && HostNames(hosts)
    requires forall i | 0 <= i < |hosts| :: NoneOf(hosts[i], IsSpace)
    ensures Put(t, Split(SetupLine(Hostname, Terminated(hosts, "+")), IsSpace))
            == (WithHosts(t, hosts), Ok(Terminated(hosts, "+")))
  {
    TerminatedClean(hosts, "+", IsSpace);
    HostLinePut(t, hosts);
  }

  /** A module line "k:word value" is that parameter with that value for module k. */
  lemma AddressedLine(u: DetectorState, k: nat, key: Keyword, v: string)
    requires u.Valid() && k < u.Size() && IsInt32(k) && key != Unknown && PlainWord(KeywordName(key))
    requires NoneOf(v, IsSpace)
    ensures Put(u, Split(ModuleSetupLine(k, key, v), IsSpace)) == PutParameter(u, key, k, v, [v])
  {
    KeywordNames(key);
    var word := KeywordName(key);
    var head := IntToString(k) + ":" + word;
    assert NoneOf(head, IsSpace) by {
      IntToStringNoSpace(k);
      NoneOfAppend(IntToString(k), ":", IsSpace);
      NoneOfAppend(IntToString(k) + ":", word, IsSpace);
    }
    assert ModuleSetupLine(k, key, v) == head + [' '] + v;
    SplitAppend(head, v, ' ', IsSpace);
    SplitNoSeparator(v, IsSpace);
    assert [head] + [v] == [head, v];
    PutSingleValueAddressed(u, k, word, v);
  }

  /** The five lines of module k's block, one by one. */
  lemma SettingsLine(u: DetectorState, k: nat, x: DetectorSettings)
    requires u.Valid() && k < u.Size() && IsInt32(k)
    ensures Put(u, Split(ModuleSetupLine(k, Settings, SettingsName(x)), IsSpace))
            == (u.(modules := u.modules.(settings := PutAt(u.modules.settings, k, x))), Ok(SettingsName(x)))
  {
    PlainKeyword(Settings);
    SettingsNameClean(x);
    AddressedLine(u, k, Settings, SettingsName(x));
    SettingsPut(u, k, x);
  }

  /** "settings" with a settings name for module k sets those settings there. */
  lemma SettingsPut(u: DetectorState, k: nat, x: DetectorSettings)
    requires u.Valid() && k < u.Size()
    ensures PutParameter(u, Settings, k, SettingsName(x), [SettingsName(x)])
            == (u.(modules := u.modules.(settings := PutAt(u.modules.settings, k, x))), Ok(SettingsName(x)))
  {
    SettingsNames(x);
  }

  lemma HighVoltageLine(u: DetectorState, k: nat, n: int)
    requires u.Valid() && k < u.Size() && IsInt32(k) && IsInt32(n)
    ensures Put(u, Split(ModuleSetupLine(k, HighVoltage, IntToString(n)), IsSpace))
            == (u.(modules := u.modules.(highVoltage := PutAt(u.modules.highVoltage, k, n))), Ok(IntToString(n)))
  {
    PlainKeyword(HighVoltage);
    IntToStringNoSpace(n);
    AddressedLine(u, k, HighVoltage, IntToString(n));
    HighVoltagePut(u, k, n);
  }

  /** "highvoltage" with a printed `int` for module k sets that number there. */
  lemma HighVoltagePut(u: DetectorState, k: nat, n: int)
    requires u.Valid() && k < u.Size() && IsInt32(n)
    ensures PutParameter(u, HighVoltage, k, IntToString(n), [IntToString(n)])
            == (u.(modules := u.modules.(highVoltage := PutAt(u.modules.highVoltage, k, n))), Ok(IntToString(n)))
  {
    StoIRoundTrip(n);
  }

  lemma FilePathLine(u: DetectorState, k: nat, v: string)
    requires u.Valid() && k < u.Size() && IsInt32(k) && NoneOf(v, IsSpace)
    ensures Put(u, Split(ModuleSetupLine(k, FPath, v), IsSpace))
            == (u.(modules := u.modules.(filePath := PutAt(u.modules.filePath, k, v))), Ok(v))
  {
    PlainKeyword(FPath);
    AddressedLine(u, k, FPath, v);
  }

  lemma FileNameLine(u: DetectorState, k: nat, v: string)
    requires u.Valid() && k < u.Size() && IsInt32(k) && NoneOf(v, IsSpace)
    ensures Put(u, Split(ModuleSetupLine(k, FName, v), IsSpace))
            == (u.(modules := u.modules.(fileName := PutAt(u.modules.fileName, k, v))), Ok(v))
  {
    PlainKeyword(FName);
    AddressedLine(u, k, FName, v);
  }

  lemma FileIndexLine(u: DetectorState, k: nat, n: int)
    requires u.Valid() && k < u.Size() && IsInt32(k) && IsInt64(n)
    ensures Put(u, Split(ModuleSetupLine(k, FIndex, IntToString(n)), IsSpace))
            == (u.(modules := u.modules.(fileIndex := PutAt(u.modules.fileIndex, k, n))), Ok(IntToString(n)))
  {
    PlainKeyword(FIndex);
    IntToStringNoSpace(n);
    AddressedLine(u, k, FIndex, IntToString(n));
    FileIndexPut(u, k, n);
  }

  /** "findex" with a printed `long long` for module k sets that index there. */
  lemma FileIndexPut(u: DetectorState, k: nat, n: int)
    requires u.Valid() && k < u.Size() && IsInt64(n)
    ensures PutParameter(u, FIndex, k, IntToString(n), [IntToString(n)])
            == (u.(modules := u.modules.(fileIndex := PutAt(u.modules.fileIndex, k, n))), Ok(IntToString(n)))
  {
    StoLLRoundTrip(n);
  }

  /** Module k's block sets its five values there, or everywhere when k is 0. */
  lemma BlockLoads(u: DetectorState, k: nat, x: DetectorSettings, hv: int, fp: string, fn: string, fi: int)
    requires u.Valid() && k < u.Size() && IsInt32(k) && IsInt32(hv) && IsInt64(fi)
    requires NoneOf(fp, IsSpace) && NoneOf(fn, IsSpace)
    ensures LoadLines(u, [ModuleSetupLine(k, Settings, SettingsName(x)),
                          ModuleSetupLine(k, HighVoltage, IntToString(hv)),
                          ModuleSetupLine(k, FPath, fp),
                          ModuleSetupLine(k, FName, fn),
                          ModuleSetupLine(k, FIndex, IntToString(fi))])
            == (u.(modules := u.modules.(settings := PutAt(u.modules.settings, k, x),
                                         highVoltage := PutAt(u.modules.highVoltage, k, hv),
                                         filePath := PutAt(u.modules.filePath, k, fp),
                                         fileName := PutAt(u.modules.fileName, k, fn),
                                         fileIndex := PutAt(u.modules.fileIndex, k, fi))), Ok(()))
  {
    var front := [ModuleSetupLine(k, Settings, SettingsName(x)),
                  ModuleSetupLine(k, HighVoltage, IntToString(hv))];
    var files := [ModuleSetupLine(k, FPath, fp),
                  ModuleSetupLine(k, FName, fn),
                  ModuleSetupLine(k, FIndex, IntToString(fi))];
    var u2 := u.(modules := u.modules.(settings := PutAt(u.modules.settings, k, x),
                                       highVoltage := PutAt(u.modules.highVoltage, k, hv)));
    FrontBlockLoads(u, k, x, hv);
    FileBlockLoads(u2, k, fp, fn, fi);
    LoadLinesAppend(u, front, files);
  }

  /** The settings and high-voltage lines of module k's block. */
  lemma FrontBlockLoads(u: DetectorState, k: nat, x: DetectorSettings, hv: int)
    requires u.Valid() && k < u.Size() && IsInt32(k) && IsInt32(hv)
    ensures LoadLines(u, [ModuleSetupLine(k, Settings, SettingsName(x)),
                          ModuleSetupLine(k, HighVoltage, IntToString(hv))])
            == (u.(modules := u.modules.(settings := PutAt(u.modules.settings, k, x),
                                         highVoltage := PutAt(u.modules.highVoltage, k, hv))), Ok(()))
  {
    var lines := [ModuleSetupLine(k, Settings, SettingsName(x)),
                  ModuleSetupLine(k, HighVoltage, IntToString(hv))];
    var u1 := u.(modules := u.modules.(settings := PutAt(u.modules.settings, k, x)));
    SettingsLine(u, k, x);
    LoadStep(u, lines, u1);
    var u2 := u1.(modules := u1.modules.(highVoltage := PutAt(u1.modules.highVoltage, k, hv)));
    HighVoltageLine(u1, k, hv);
    LoadStep(u1, lines[1..], u2);
    assert lines[1..][1..] == [];
  }

  /** The file path, file name and file index lines of module k's block. */
  lemma FileBlockLoads(u: DetectorState, k: nat, fp: string, fn: string, fi: int)
    requires u.Valid() && k < u.Size() && IsInt32(k) && IsInt64(fi)
    requires NoneOf(fp, IsSpace) && NoneOf(fn, IsSpace)
    ensures LoadLines(u, [ModuleSetupLine(k, FPath, fp),
                          ModuleSetupLine(k, FName, fn),
                          ModuleSetupLine(k, FIndex, IntToString(fi))])
            == (u.(modules := u.modules.(filePath := PutAt(u.modules.filePath, k, fp),
                                         fileName := PutAt(u.modules.fileName, k, fn),
                                         fileIndex := PutAt(u.modules.fileIndex, k, fi))), Ok(()))
  {
    var lines := [ModuleSetupLine(k, FPath, fp),
                  ModuleSetupLine(k, FName, fn),
                  ModuleSetupLine(k, FIndex, IntToString(fi))];
    var u1 := u.(modules := u.modules.(filePath := PutAt(u.modules.filePath, k, fp)));
    FilePathLine(u, k, fp);
    LoadStep(u, lines, u1);
    var u2 := u1.(modules := u1.modules.(fileName := PutAt(u1.modules.fileName, k, fn)));
    FileNameLine(u1, k, fn);
    LoadStep(u1, lines[1..], u2);
    assert lines[1..][1..] == lines[2..];
    var u3 := u2.(modules := u2.modules.(fileIndex := PutAt(u2.modules.fileIndex, k, fi)));
    FileIndexLine(u2, k, fi);
    LoadStep(u2, lines[2..], u3);
    assert lines[2..][1..] == [];
  }

  /** A vector after the blocks of modules 0 .. k-1: module j < k holds its own value, every
      later module the value of module 0, which "0:" wrote to all. */
  function Swept<T>(target: seq<T>, k: nat): (r: seq<T>)
    requires target != []
    ensures |r| == |target|
  {
    seq(|target|, j requires 0 <= j < |target| => if j < k then target[j] else target[0])
  }

  /** The block of module 0 fills the vector with module 0's value ... */
  lemma SweepFirst<T>(v: seq<T>, target: seq<T>)
    requires |v| == |target| && target != []
    ensures PutAt(v, 0, target[0]) == Swept(target, 1)
  {
  }

  /** ... each later block puts its module's value in its own place ... */
  lemma SweepStep<T>(target: seq<T>, k: nat)
    requires 1 <= k < |target|
    ensures PutAt(Swept(target, k), k, target[k]) == Swept(target, k + 1)
  {
  }

  /** ... and once every block is read, every module holds its own value. */
  lemma SweepAll<T>(target: seq<T>)
    requires target != []
    ensures Swept(target, |target|) == target
  {
  }

  /** The numbers and file names of every module of `s` read back from its block. */
  predicate ModulesReadBack(s: DetectorState) {
    && s.Valid() && 0 < s.Size() && IsInt32(s.Size())
    && forall i | 0 <= i < s.Size() ::
         IsInt32(s.modules.highVoltage[i]) && IsInt64(s.modules.fileIndex[i])
         && NoneOf(s.modules.filePath[i], IsSpace) && NoneOf(s.modules.fileName[i], IsSpace)
  }

  /** `w` after the blocks of the first k modules of `s`. */
  function Loaded(w: DetectorState, s: DetectorState, k: nat): (r: DetectorState)
    requires w.Valid() && s.Valid() && w.Size() == s.Size() && 0 < s.Size()
    ensures r.Valid() && r.hostname == w.hostname
  {
    w.(modules := w.modules.(settings := Swept(s.modules.settings, k),
                             highVoltage := Swept(s.modules.highVoltage, k),
                             filePath := Swept(s.modules.filePath, k),
                             fileName := Swept(s.modules.fileName, k),
                             fileIndex := Swept(s.modules.fileIndex, k)))
  }

  /** Reading the blocks of modules 0 .. k-1 throws nothing and sweeps them into place. */
  lemma {:induction false} ModulesLoad(w: DetectorState, s: DetectorState, k: nat)
    requires w.Valid() && ModulesReadBack(s) && w.Size() == s.Size() && 1 <= k <= s.Size()
    ensures LoadLines(w, ModuleSetups(s, k)) == (Loaded(w, s, k), Ok(()))
  {
    if k == 1 {
      FirstModuleLoads(w, s);
    } else {
      ModulesLoad(w, s, k - 1);
      NextModuleLoads(w, s, k);
    }
  }

  lemma FirstModuleLoads(w: DetectorState, s: DetectorState)
    requires w.Valid() && ModulesReadBack(s) && w.Size() == s.Size()
    ensures LoadLines(w, ModuleSetups(s, 1)) == (Loaded(w, s, 1), Ok(()))
  {
    var m := s.modules;
    assert ModuleSetups(s, 1) == ModuleSetup(s, 0);
    BlockLoads(w, 0, m.settings[0], m.highVoltage[0], m.filePath[0], m.fileName[0], m.fileIndex[0]);
    SweepFirst(w.modules.settings, m.settings);
    SweepFirst(w.modules.highVoltage, m.highVoltage);
    SweepFirst(w.modules.filePath, m.filePath);
    SweepFirst(w.modules.fileName, m.fileName);
    SweepFirst(w.modules.fileIndex, m.fileIndex);
  }

  lemma NextModuleLoads(w: DetectorState, s: DetectorState, k: nat)
    requires w.Valid() && ModulesReadBack(s) && w.Size() == s.Size() && 2 <= k <= s.Size()
    requires LoadLines(w, ModuleSetups(s, k - 1)) == (Loaded(w, s, k - 1), Ok(()))
    ensures LoadLines(w, ModuleSetups(s, k)) == (Loaded(w, s, k), Ok(()))
  {
    var m := s.modules;
    var j := k - 1;
    LoadLinesAppend(w, ModuleSetups(s, j), ModuleSetup(s, j));
    var u := Loaded(w, s, j);
    BlockLoads(u, j, m.settings[j], m.highVoltage[j], m.filePath[j], m.fileName[j], m.fileIndex[j]);
    SweepStep(m.settings, j);
    SweepStep(m.highVoltage, j);
    SweepStep(m.filePath, j);
    SweepStep(m.fileName, j);
    SweepStep(m.fileIndex, j);
  }

  /** A line putCommand accepts passes its state on to the next line. */
  lemma LoadStep(u: DetectorState, lines: seq<string>, next: DetectorState)
    requires u.Valid() && lines != []
    requires Put(u, Split(lines[0], IsSpace)).1.Ok? && Put(u, Split(lines[0], IsSpace)).0 == next
    ensures LoadLines(u, lines) == LoadLines(next, lines[1..])
  {
  }

  /** The detector-wide lines throw nothing and leave the hosts and modules alone. */
  lemma CommonKeeps(s: DetectorState)
    requires s.Valid() && PortsFit(s)
    ensures forall i | 0 <= i < |CommonSetup(s)| :: KeepsModules(CommonSetup(s)[i])
  {
    var c := CommonSetup(s);
    FrontKeeps(s);
    ExtSigKeeps(s);
    BackKeeps(s);
    assert forall i | 0 <= i < |c| ::
      c[i] == if i < 4 then FrontSetup(s)[i] else if i < 8 then ExtSigSetup(s)[i - 4] else BackSetup(s)[i - 8];
  }

  lemma FrontKeeps(s: DetectorState)
    requires s.Valid() && PortsFit(s)
    ensures forall i | 0 <= i < 4 :: KeepsModules(FrontSetup(s)[i])
  {
    NumberLineKeeps(Port, s.network.port);
    NumberLineKeeps(StopPort, s.network.stopPort);
    NumberLineKeeps(RxTcpPort, s.network.rxTcpPort);
    TextLineKeeps(SettingsPath, s.setup.settingsPath);
  }

  lemma ExtSigKeeps(s: DetectorState)
    requires s.Valid()
    ensures forall i | 0 <= i < NUM_EXTSIG :: KeepsModules(ExtSigSetup(s)[i])
  {
    forall i | 0 <= i < NUM_EXTSIG
      ensures KeepsModules(ExtSigSetup(s)[i])
    {
      ExtSigLineKeeps(i, s.setup.extsig[i]);
    }
  }

  lemma BackKeeps(s: DetectorState)
    requires s.Valid() && PortsFit(s)
    ensures forall i | 0 <= i < 6 :: KeepsModules(BackSetup(s)[i])
  {
    TextLineKeeps(UdpSrcIp, s.network.udpSrcIp);
    TextLineKeeps(UdpSrcMac, s.network.udpSrcMac);
    NumberLineKeeps(UdpDstPort, s.network.udpDstPort);
    TextLineKeeps(UdpDstIp, s.network.udpDstIp);
    TextLineKeeps(RxHostname, s.network.rxHostname);
    TextLineKeeps(BadChannels, s.setup.badChannels);
  }

  lemma NoneOfAppend(a: string, b: string, p: char -> bool)
    ensures NoneOf(a + b, p) <==> NoneOf(a, p) && NoneOf(b, p)
  {
    assert forall i | 0 <= i < |a| :: (a + b)[i] == a[i];
    assert forall i | 0 <= i < |b| :: (a + b)[|a| + i] == b[i];
  }

  /** A printed integer holds no line break. */
  lemma NumberClean(n: int)
    ensures NoneOf(IntToString(n), IsNewline)
  {
    IntToStringChars(n);
  }

  /** "head value" holds no line break when neither part does. */
  lemma SpacedClean(head: string, v: string)
    requires NoneOf(head, IsNewline) && NoneOf(v, IsNewline)
    ensures NoneOf(head + " " + v, IsNewline)
  {
    NoneOfAppend(head, " ", IsNewline);
    NoneOfAppend(head + " ", v, IsNewline);
  }

  /** A word without white space holds no line break. */
  lemma SpaceFreeClean(w: string)
    requires NoneOf(w, IsSpace)
    ensures NoneOf(w, IsNewline)
  {
  }

  lemma CommonClean(s: DetectorState)
    requires s.Valid() && NoLineBreaks(s)
    ensures forall i | 0 <= i < |CommonSetup(s)| :: NoneOf(CommonSetup(s)[i], IsNewline)
  {
    var c := CommonSetup(s);
    FrontClean(s);
    ExtSigClean(s);
    BackClean(s);
    assert forall i | 0 <= i < |c| ::
      c[i] == if i < 4 then FrontSetup(s)[i] else if i < 8 then ExtSigSetup(s)[i - 4] else BackSetup(s)[i - 8];
  }

  /** A setup line holds no line break when its value holds none. */
  lemma KeywordLineClean(k: Keyword, v: string)
    requires k in {Hostname, Port, StopPort, RxTcpPort, SettingsPath, ExtSig, UdpSrcIp, UdpSrcMac,
                   UdpDstPort, UdpDstIp, RxHostname, BadChannels}
    requires NoneOf(v, IsNewline)
    ensures NoneOf(SetupLine(k, v), IsNewline)
  {
    PlainKeyword(k);
    SpacedClean(KeywordName(k), v);
  }

  lemma FrontClean(s: DetectorState)
    requires s.Valid() && NoLineBreaks(s)
    ensures forall i | 0 <= i < 4 :: NoneOf(FrontSetup(s)[i], IsNewline)
  {
    NumberClean(s.network.port);
    NumberClean(s.network.stopPort);
    NumberClean(s.network.rxTcpPort);
    KeywordLineClean(Port, IntToString(s.network.port));
    KeywordLineClean(StopPort, IntToString(s.network.stopPort));
    KeywordLineClean(RxTcpPort, IntToString(s.network.rxTcpPort));
    KeywordLineClean(SettingsPath, s.setup.settingsPath);
  }

  lemma ExtSigClean(s: DetectorState)
    requires s.Valid() && NoLineBreaks(s)
    ensures forall i | 0 <= i < NUM_EXTSIG :: NoneOf(ExtSigSetup(s)[i], IsNewline)
  {
    forall i | 0 <= i < NUM_EXTSIG
      ensures NoneOf(ExtSigSetup(s)[i], IsNewline)
    {
      NumberClean(i);
      SpacedClean(IntToString(i), s.setup.extsig[i]);
      KeywordLineClean(ExtSig, IntToString(i) + " " + s.setup.extsig[i]);
    }
  }

  lemma BackClean(s: DetectorState)
    requires s.Valid() && NoLineBreaks(s)
    ensures forall i | 0 <= i < 6 :: NoneOf(BackSetup(s)[i], IsNewline)
  {
    NumberClean(s.network.udpDstPort);
    KeywordLineClean(UdpSrcIp, s.network.udpSrcIp);
    KeywordLineClean(UdpSrcMac, s.network.udpSrcMac);
    KeywordLineClean(UdpDstPort, IntToString(s.network.udpDstPort));
    KeywordLineClean(UdpDstIp, s.network.udpDstIp);
    KeywordLineClean(RxHostname, s.network.rxHostname);
    KeywordLineClean(BadChannels, s.setup.badChannels);
  }

  /** A module line holds no line break when its value holds none. */
  lemma ModuleLineClean(i: nat, key: Keyword, v: string)
    requires key in {Settings, HighVoltage, FPath, FName, FIndex} && NoneOf(v, IsNewline)
    ensures NoneOf(ModuleSetupLine(i, key, v), IsNewline)
  {
    var word := KeywordName(key);
    PlainKeyword(key);
    NumberClean(i);
    NoneOfAppend(IntToString(i), ":", IsNewline);
    NoneOfAppend(IntToString(i) + ":", word, IsNewline);
    SpacedClean(IntToString(i) + ":" + word, v);
  }

  lemma {:induction false} ModuleSetupsClean(s: DetectorState, k: nat)
    requires ModulesReadBack(s) && k <= s.Size()
    ensures LinesClean(ModuleSetups(s, k))
  {
    if k > 0 {
      ModuleSetupsClean(s, k - 1);
      ModuleBlockClean(s, k - 1);
      ModuleSetupsCleanStep(s, k);
    }
  }

  lemma ModuleSetupsCleanStep(s: DetectorState, k: nat)
    requires s.Valid() && 0 < k <= s.Size()
    requires LinesClean(ModuleSetups(s, k - 1)) && LinesClean(ModuleSetup(s, k - 1))
    ensures LinesClean(ModuleSetups(s, k))
  {
    LinesCleanAppend(ModuleSetups(s, k - 1), ModuleSetup(s, k - 1));
  }

  lemma ModuleBlockClean(s: DetectorState, j: nat)
    requires ModulesReadBack(s) && j < s.Size()
    ensures LinesClean(ModuleSetup(s, j))
  {
    var m := s.modules;
    SettingsNameClean(m.settings[j]);
    NumberClean(m.highVoltage[j]);
    NumberClean(m.fileIndex[j]);
    ModuleLineClean(j, Settings, SettingsName(m.settings[j]));
    ModuleLineClean(j, HighVoltage, IntToString(m.highVoltage[j]));
    ModuleLineClean(j, FPath, m.filePath[j]);
    ModuleLineClean(j, FName, m.fileName[j]);
    ModuleLineClean(j, FIndex, IntToString(m.fileIndex[j]));
  }

  /** No line holds a line break. */
  predicate LinesClean(lines: seq<string>) {
    forall i | 0 <= i < |lines| :: NoneOf(lines[i], IsNewline)
  }

  lemma LinesCleanAppend(a: seq<string>, b: seq<string>)
    requires LinesClean(a) && LinesClean(b)
    ensures LinesClean(a + b)
  {
    assert forall i | |a| <= i < |a + b| :: (a + b)[i] == b[i - |a|];
  }

  /** No line of the setup file holds a line break, so the file splits back into its lines. */
  lemma SetupClean(s: DetectorState)
    requires Dumpable(s)
    ensures LinesClean(SetupLines(s))
  {
    var head := SetupLine(Hostname, Terminated(s.hostname, "+"));
    assert LinesClean([head]) by {
      TerminatedClean(s.hostname, "+", IsSpace);
      KeywordLineClean(Hostname, Terminated(s.hostname, "+"));
    }
    assert LinesClean(CommonSetup(s)) by {
      CommonClean(s);
    }
    assert LinesClean(ModuleSetups(s, s.Size())) by {
      ModuleSetupsClean(s, s.Size());
    }
    LinesCleanAppend([head], CommonSetup(s));
    LinesCleanAppend([head] + CommonSetup(s), ModuleSetups(s, s.Size()));
  }

  /** The empty line read at the end of the file is a command putCommand ignores. */
  lemma EmptyLineLoads(u: DetectorState)
    requires u.Valid()
    ensures LoadLines(u, [""]) == (u, Ok(()))
  {
    assert Split("", IsSpace) == [""];
    assert FindFirst("", ':').None?;
    assert KeywordOf("") == Unknown;
  }

  /** What dumpDetectorSetup writes, read back by retrieveDetectorSetup on any state, gives
      the same hosts and, for every module, the same settings, high voltage, file path, file
      name and file index. */
  lemma DumpThenRetrieve(t: DetectorState, s: DetectorState)
    requires t.Valid() && Dumpable(s)
    ensures var r := LoadLines(t, Split(Terminated(SetupLines(s), "\n"), IsNewline));
      && r.1 == Ok(())
      && r.0.hostname == s.hostname
      && r.0.modules.settings == s.modules.settings
      && r.0.modules.highVoltage == s.modules.highVoltage
      && r.0.modules.filePath == s.modules.filePath
      && r.0.modules.fileName == s.modules.fileName
      && r.0.modules.fileIndex == s.modules.fileIndex
  {
    var lines := SetupLines(s);
    SetupClean(s);
    assert "\n" == ['\n'];
    SplitTerminated(lines, '\n', IsNewline);
    var head := [SetupLine(Hostname, Terminated(s.hostname, "+"))];
    var common := CommonSetup(s);
    var mods := ModuleSetups(s, s.Size());
    assert lines == (head + common) + mods;
    LoadLinesAppend(t, lines, [""]);
    LoadLinesAppend(t, head + common, mods);
    LoadLinesAppend(t, head, common);
    HostLineLoads(t, s.hostname);
    var w0 := WithHosts(t, s.hostname);
    LoadStep(t, head, w0);
    assert LoadLines(t, head) == (w0, Ok(()));
    CommonKeeps(s);
    LoadKeeping(w0, common);
    var w1 := LoadLines(w0, common).0;
    ModulesLoad(w1, s, s.Size());
    var w2 := Loaded(w1, s, s.Size());
    SweepAll(s.modules.settings);
    SweepAll(s.modules.highVoltage);
    SweepAll(s.modules.filePath);
    SweepAll(s.modules.fileName);
    SweepAll(s.modules.fileIndex);
    EmptyLineLoads(w2);
  }

  /** putCommand "hostname list" replaces the modules by one fresh module per listed host. */
  lemma HostnamePut(t: DetectorState, v: string)
    requires t.Valid() && NoneOf(v, IsSpace)
    ensures Put(t, [KeywordName(Hostname), v]) == (WithHosts(t, HostList(v)), Ok(v))
  {
    PlainKeyword(Hostname);
    PutSingleValue(t, KeywordName(Hostname), v);
    KeywordNames(Hostname);
  }

  /** "hostname list" splits into the word and the list when the list holds no white space. */
  lemma HostLineWords(v: string)
    requires NoneOf(v, IsSpace)
    ensures Split(SetupLine(Hostname, v), IsSpace) == [KeywordName(Hostname), v]
  {
    PlainKeyword(Hostname);
    SetupLineWords(Hostname, v);
    SplitNoSeparator(v, IsSpace);
  }


  /** The line "hostname list" configures the listed hosts. */
  lemma HostLinePut(t: DetectorState, hosts: seq<string>)
    requires t.Valid() && hosts != [] && HostNames(hosts) && NoneOf(Terminated(hosts, "+"), IsSpace)
    ensures Put(t, Split(SetupLine(Hostname, Terminated(hosts, "+")), IsSpace))
            == (WithHosts(t, hosts), Ok(Terminated(hosts, "+")))
  {
    var v := Terminated(hosts, "+");
    HostLineWords(v);
    HostnamePut(t, v);
    HostListOfTerminated(hosts);
  }


  /** A printed integer holds no white space and does not end in it. */
  lemma IntToStringNoSpace(n: int)
    ensures NoneOf(IntToString(n), IsSpace) && NoTrailingSpace(IntToString(n))
  {
    IntToStringChars(n);
  }
}
