/** The state of the legacy simulated detector `slsDetectorUsers`, as pure values: the
    constructor's defaults, the tri-state `enable*` rule, the setters that ignore a negative
    argument, the geometry setter, and the measurement counters driven by the data worker. */
module UsersModel {
  import opened Wrappers
  import opened UsersTables
  import SimDefs

  /** `m_id`: the constructor sets it to 0 whatever id it is given, and nothing changes it. */
  const CONTROLLER_ID: int := 0
  /** `detectorType::GET_DETECTOR_TYPE`, the initial type, taken as the query value -1 of the
      legacy type enumeration; it is not one the name table knows. */
  const GET_DETECTOR_TYPE: int := -1
  /** `m_status` codes used by the simulation (see `RunStatusType`). */
  const STATUS_IDLE: int := 0
  const STATUS_RUNNING: int := 5

  datatype Files = Files(filePath: string, fileName: string, fileIndex: int, writeToFile: bool,
                         flatFieldDir: string, flatFieldFile: string,
                         configFile: string, parametersFile: string)

  /** The four corrections that the `enable*` setters switch. */
  datatype Corrections = Corrections(flatField: bool, countRate: bool, pixelMask: bool, angular: bool)

  datatype Geometry = Geometry(x0: int, y0: int, nx: int, ny: int)

  datatype Acquisition = Acquisition(status: int, neededFrames: int, gates: int, frames: int,
                                     cycles: int, timing: int)

  datatype Readout = Readout(bitDepth: int, settings: int, threshold: int, beamEnergy: int,
                             receiverMode: int, probes: int, measurements: int)

  datatype Setup = Setup(flags: string, lock: int, hostname: string, extsig: seq<string>,
                         master: int, sync: string, settingsDir: string, calDir: string,
                         threaded: int, moveFlag: int, highVoltage: int)

  datatype Images = Images(darkImage: string, gainImage: string, badChannels: string, angConv: string)

  datatype Network = Network(port: int, stopPort: int, detectorIp: string, detectorMac: string,
                             rxTcpPort: int, rxUdpPort: int, rxHostname: string, rxUdpIp: string,
                             rxOnline: int, rxLock: int)

  /** The members of `slsDetectorUsers` that are not floating point. */
  datatype UsersState = UsersState(detectorType: int, online: bool, files: Files,
                                   corrections: Corrections, geometry: Geometry,
                                   acquisition: Acquisition, readout: Readout, setup: Setup,
                                   images: Images, network: Network)
  {
    /** `m_extsig` is an array of four signal names. */
    predicate Valid() {
      |setup.extsig| == 4
    }
  }

  /** The state the constructor leaves. */
  function UsersDefaults(): (s: UsersState)
    ensures s.Valid()
  {
    UsersState(
      GET_DETECTOR_TYPE, true,
      Files("", "run", 0, false, "", "", "", ""),
      Corrections(false, false, false, false),
      Geometry(0, 0, 1280, 1),
      Acquisition(STATUS_IDLE, 0, 0, 1, 0, 0),
      Readout(16, 0, 0, 0, 0, 0, 0),
      Setup("", 0, "", ["off", "off", "off", "off"], -1, "none", "", "", 1, 1, 120),
      Images("none", "none", "none", "none"),
      Network(1952, 1953, "", "", SimDefs.SLS_RX_DEFAULT_PORT, 50001, "", "", 1, 0))
  }

  /** A new detector is idle, with standard settings, automatic timing, the generic type name,
      every correction and file writing off, and the default ports. */
  lemma DefaultsDescribe()
    ensures var s := UsersDefaults();
      && RunStatusType(s.acquisition.status) == "idle"
      && SettingsName(s.readout.settings) == "standard"
      && TimingModeName(s.acquisition.timing) == "auto"
      && TypeReply(s.detectorType) == "Undefined"
      && s.corrections == Corrections(false, false, false, false) && !s.files.writeToFile
      && s.files.fileName == "run" && s.files.fileIndex == 0 && s.readout.bitDepth == 16
      && s.network.port == 1952 && s.network.stopPort == 1953
      && s.network.rxTcpPort == 1954 && s.network.rxUdpPort == 50001
      && forall i | 0 <= i < 4 :: s.setup.extsig[i] == "off"
  {
  }

  // ----- the tri-state setters -----

  /** `setOnline(i)` and the `enable*(i)` setters: 0 clears the flag, 1 sets it, and any
      other argument only asks. */
  function TriState(flag: bool, i: int): (r: bool)
    ensures i == 0 ==> !r
    ensures i == 1 ==> r
    ensures i != 0 && i != 1 ==> r == flag
  {
    if i == 0 then false else if i == 1 then true else flag
  }

  /** What the tri-state setters return: 1 when the flag is set, 0 otherwise. */
  function FlagReply(flag: bool): (r: int)
    ensures r == 1 <==> flag
    ensures r == 0 || r == 1
  {
    if flag then 1 else 0
  }

  /** Setting, then asking, answers what was set; asking twice changes nothing. */
  lemma TriStateQueries(flag: bool, i: int, q: int)
    requires q != 0 && q != 1
    ensures TriState(TriState(flag, i), q) == TriState(flag, i)
    ensures i in {0, 1} ==> FlagReply(TriState(TriState(flag, i), q)) == i
    ensures TriState(TriState(flag, i), i) == TriState(flag, i)
  {
  }

  // ----- the setters that ignore a negative argument -----

  /** `setBitDepth`, `setSettings`, `setThresholdEnergy`, `setBeamEnergy`,
      `setNumberOfGates/Frames/Cycles`, `setTimingMode`, `setReceiverMode`: the new value
      for a non-negative argument, the current one otherwise; the setter returns it. */
  function Sentinel(current: int, value: int): (r: int)
    ensures value >= 0 ==> r == value
    ensures value < 0 ==> r == current
  {
    if value >= 0 then value else current
  }

  /** A negative argument is a pure query, and setting twice is setting once. */
  lemma SentinelQueries(current: int, value: int, q: int)
    requires q < 0
    ensures Sentinel(Sentinel(current, value), q) == Sentinel(current, value)
    ensures Sentinel(Sentinel(current, value), value) == Sentinel(current, value)
    ensures Sentinel(current, value) >= 0 || Sentinel(current, value) == current
  {
  }

  // ----- the geometry -----

  /** `setDetectorSize(x0, y0, nx, ny)` as written: x0 and y0 follow the sentinel rule, but
      nx and ny are tested against the stored size rather than the argument. */
  function SetDetectorSizeAsWritten(g: Geometry, x0: int, y0: int, nx: int, ny: int): (r: Geometry)
    ensures r.x0 == Sentinel(g.x0, x0) && r.y0 == Sentinel(g.y0, y0)
    ensures g.nx >= 0 ==> r.nx == nx
    ensures g.nx < 0 ==> r.nx == g.nx
    ensures g.ny >= 0 ==> r.ny == ny
    ensures g.ny < 0 ==> r.ny == g.ny
  {
    Geometry(Sentinel(g.x0, x0), Sentinel(g.y0, y0),
             if g.nx >= 0 then nx else g.nx,
             if g.ny >= 0 then ny else g.ny)
  }

  /** As written, asking with the default arguments (all -1) makes the stored size -1 x -1,
      and after that no call can change nx or ny again. */
  lemma SetDetectorSizeAsWrittenLocks(g: Geometry, x0: int, y0: int, nx: int, ny: int)
    requires g.nx >= 0 && g.ny >= 0
    ensures var q := SetDetectorSizeAsWritten(g, -1, -1, -1, -1);
      q.nx == -1 && q.ny == -1 && q.x0 == g.x0 && q.y0 == g.y0
      && SetDetectorSizeAsWritten(q, x0, y0, nx, ny).nx == -1
      && SetDetectorSizeAsWritten(q, x0, y0, nx, ny).ny == -1
  {
  }

  /** `setDetectorSize` with the evidently intended test: every coordinate follows the
      sentinel rule, like every other setter of the class. */
  function SetDetectorSize(g: Geometry, x0: int, y0: int, nx: int, ny: int): (r: Geometry)
    ensures r.x0 == Sentinel(g.x0, x0) && r.y0 == Sentinel(g.y0, y0)
    ensures r.nx == Sentinel(g.nx, nx) && r.ny == Sentinel(g.ny, ny)
  {
    Geometry(Sentinel(g.x0, x0), Sentinel(g.y0, y0), Sentinel(g.nx, nx), Sentinel(g.ny, ny))
  }

  /** With the intended test the default arguments are a pure query, a size stays
      non-negative once it is, and the last non-negative size written is the one kept. */
  lemma SetDetectorSizeQueries(g: Geometry, x0: int, y0: int, nx: int, ny: int)
    ensures SetDetectorSize(g, -1, -1, -1, -1) == g
    ensures g.nx >= 0 && g.ny >= 0 ==>
      SetDetectorSize(g, x0, y0, nx, ny).nx >= 0 && SetDetectorSize(g, x0, y0, nx, ny).ny >= 0
    ensures nx >= 0 && ny >= 0 ==>
      var r := SetDetectorSize(SetDetectorSize(g, -1, -1, -1, -1), x0, y0, nx, ny);
      r.nx == nx && r.ny == ny
    ensures SetDetectorSizeAsWritten(g, -1, -1, -1, -1) == SetDetectorSize(g, -1, -1, -1, -1)
            <==> g.nx < 0 && g.ny < 0
  {
  }

  // ----- measurements -----

  /** The number of frames a measurement waits for: frames x max(gates, 1) x max(cycles, 1). */
  function NeededFrames(a: Acquisition): (n: int)
    ensures a.frames >= 0 && a.gates >= 0 && a.cycles >= 0 ==> n >= 0
    ensures a.gates <= 1 && a.cycles <= 1 ==> n == a.frames
  {
    a.frames * (if a.gates > 1 then a.gates else 1) * (if a.cycles > 1 then a.cycles else 1)
  }

  /** `startMeasurementNoWait`: the frame countdown starts and the status is running. */
  function StartMeasurement(s: UsersState): (r: UsersState)
    ensures r.acquisition.status == STATUS_RUNNING
    ensures r.acquisition.neededFrames == NeededFrames(s.acquisition)
    ensures r.(acquisition := s.acquisition) == s
    ensures r.acquisition.(status := s.acquisition.status, neededFrames := s.acquisition.neededFrames) == s.acquisition
  {
    s.(acquisition := s.acquisition.(neededFrames := NeededFrames(s.acquisition), status := STATUS_RUNNING))
  }

  /** `stopMeasurement`: idle, and the next file index. */
  function StopMeasurement(s: UsersState): (r: UsersState)
    ensures RunStatusType(r.acquisition.status) == "idle"
    ensures r.files.fileIndex == s.files.fileIndex + 1
    ensures r.(acquisition := s.acquisition, files := s.files) == s
    ensures r.acquisition.(status := s.acquisition.status) == s.acquisition
    ensures r.files.(fileIndex := s.files.fileIndex) == s.files
  {
    s.(acquisition := s.acquisition.(status := STATUS_IDLE),
       files := s.files.(fileIndex := s.files.fileIndex + 1))
  }

  /** One pass of the data worker thread: a running measurement with no frame left stops,
      a running one counts one frame down, and otherwise the worker waits. */
  function DataStep(s: UsersState): UsersState {
    if s.acquisition.status == STATUS_RUNNING && s.acquisition.neededFrames <= 0 then StopMeasurement(s)
    else if s.acquisition.status == STATUS_RUNNING then
      s.(acquisition := s.acquisition.(neededFrames := s.acquisition.neededFrames - 1))
    else s
  }

  function DataSteps(s: UsersState, n: nat): UsersState
    decreases n
  {
    if n == 0 then s else DataSteps(DataStep(s), n - 1)
  }

  /** A running measurement with m frames to go is still running after m passes and has
      stopped after m + 1. */
  lemma {:induction false} MeasurementRunsOut(s: UsersState, m: nat)
    requires s.acquisition.status == STATUS_RUNNING && s.acquisition.neededFrames == m
    ensures DataSteps(s, m).acquisition.status == STATUS_RUNNING
    ensures DataSteps(s, m + 1) == StopMeasurement(s.(acquisition := s.acquisition.(neededFrames := 0)))
    decreases m
  {
    if m > 0 {
      var t := DataStep(s);
      assert t == s.(acquisition := s.acquisition.(neededFrames := m - 1));
      MeasurementRunsOut(t, m - 1);
      assert t.(acquisition := t.acquisition.(neededFrames := 0))
          == s.(acquisition := s.acquisition.(neededFrames := 0));
    }
  }

  /** A measurement started on a detector whose counts are not negative ends, after
      NeededFrames + 1 passes of the data worker, idle with the file index one higher and
      everything else as it was. */
  lemma MeasurementCompletes(s: UsersState)
    requires NeededFrames(s.acquisition) >= 0
    ensures var r := DataSteps(StartMeasurement(s), NeededFrames(s.acquisition) + 1);
      r.acquisition == s.acquisition.(status := STATUS_IDLE, neededFrames := 0)
      && r.files == s.files.(fileIndex := s.files.fileIndex + 1)
      && r.(acquisition := s.acquisition, files := s.files) == s
  {
    MeasurementRunsOut(StartMeasurement(s), NeededFrames(s.acquisition));
  }

  /** The worker leaves an idle detector alone. */
  lemma IdleStaysIdle(s: UsersState, n: nat)
    requires s.acquisition.status != STATUS_RUNNING
    ensures DataSteps(s, n) == s
  {
  }

  // ----- the version numbers -----

  /** `getModuleFirmwareVersion` and `getModuleSerialNumber`: all 64 bits set, which is -1
      as an int64. */
  const MODULE_VERSION: int := -1
  const DETECTOR_FIRMWARE_VERSION: int := 0x2F20151015
  const DETECTOR_SERIAL_NUMBER: int := 0x50C246D8DB
  const DETECTOR_SOFTWARE_VERSION: int := 0x30020150622
  const THIS_SOFTWARE_VERSION: int := 0x94520150622

  /** `getDetectorDeveloper`. */
  const DETECTOR_DEVELOPER: string := "XFEL-Simulation"
}
