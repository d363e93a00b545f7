/** The state of the simulated SLS detector (`sls::Detector`) as one value, and the pure
    definitions that specify its operations: the reset to defaults, the host list, the
    per-position getters and setters, and the name tables of the command language. */
module DetectorModel {
  import opened Wrappers
  import opened Text
  import opened SimDefs

  const DEFAULT_PORT: int := 1952
  const DEFAULT_STOP_PORT: int := 1953
  const DEFAULT_UDP_DST_PORT: int := 50001
  const DEFAULT_EXPTIME_NS: int := 10000
  const DEFAULT_PERIOD_NS: int := 1000000
  const EXTSIG_DEFAULT: string := "trigger_in_rising_edge"
  const NUM_EXTSIG: nat := 4

  const FIRMWARE_VERSION: nat := 0x200724
  const DETECTOR_SERVER_VERSION: nat := 0x201117
  const SERIAL_NUMBER_BASE: int := 0xFFF20000
  const RECEIVER_VERSION: nat := 0x201125
  const PACKAGE_VERSION: string := "7.0.1"
  const SIMULATED_TEMPERATURE: int := 40

  /** Message of the exception `std::stoi` / `std::stoll` throw. */
  const STOI_ERROR: string := "stoi"
  const STOLL_ERROR: string := "stoll"

  /** The per-module vectors of `sls::Detector`, indexed by module position. */
  datatype ModuleVectors = ModuleVectors(
    settings: seq<DetectorSettings>,
    filePath: seq<string>,
    fileName: seq<string>,
    fileIndex: seq<int>,
    highVoltage: seq<int>,
    powerChip: seq<bool>)
  {
    /** One entry per module in every vector. */
    predicate Sized(n: nat) {
      |settings| == n && |filePath| == n && |fileName| == n && |fileIndex| == n
      && |highVoltage| == n && |powerChip| == n
    }
  }

  /** Timing and frame counts (times in nanoseconds), the run status and the number of
      frames the running acquisition still has to deliver. */
  datatype Acquisition = Acquisition(
    status: RunStatus,
    exposureNs: int,
    periodNs: int,
    delayNs: int,
    frames: int,
    triggers: int,
    gates: int,
    timing: TimingMode,
    neededFrames: int)

  /** Control ports and the UDP data path between detector and receiver. */
  datatype Network = Network(
    port: int,
    stopPort: int,
    udpSrcIp: string,
    udpSrcMac: string,
    rxHostname: string,
    rxTcpPort: int,
    udpDstIp: string,
    udpDstPort: int)

  /** The detector-wide configuration strings and switches. */
  datatype Setup = Setup(
    detectorType: DetectorType,
    writeToFile: bool,
    extsig: seq<string>,
    settingsPath: string,
    badChannels: string)

  /** Everything `sls::Detector` keeps.  `registers` is the register file
      `readRegister`/`writeRegister` share between all modules. */
  datatype DetectorState = DetectorState(
    shmId: int,
    hostname: seq<string>,
    modules: ModuleVectors,
    acquisition: Acquisition,
    network: Network,
    setup: Setup,
    registers: map<u32, u32>)
  {
    /** `size()`: the number of modules is the number of configured host names. */
    function Size(): nat {
      |hostname|
    }

    /** Every per-module vector has one entry per module, and there are four external
        signals. */
    predicate Valid() {
      modules.Sized(|hostname|) && |setup.extsig| == NUM_EXTSIG
    }
  }

  /** `freeSharedMemory`: every field back to its default.  The shared-memory id, the
      register file and the frame countdown are not touched. */
  function Defaults(s: DetectorState): (r: DetectorState)
    ensures r.Valid() && r.Size() == 0
    ensures r.shmId == s.shmId && r.registers == s.registers
    ensures r.acquisition.neededFrames == s.acquisition.neededFrames
  {
    DetectorState(
      shmId := s.shmId,
      hostname := [],
      modules := ModuleVectors([], [], [], [], [], []),
      acquisition := Acquisition(
        status := Idle, exposureNs := DEFAULT_EXPTIME_NS, periodNs := DEFAULT_PERIOD_NS,
        delayNs := 0, frames := 1, triggers := 1, gates := 1, timing := AutoTiming,
        neededFrames := s.acquisition.neededFrames),
      network := Network(
        port := DEFAULT_PORT, stopPort := DEFAULT_STOP_PORT, udpSrcIp := "", udpSrcMac := "",
        rxHostname := "", rxTcpPort := SLS_RX_DEFAULT_PORT, udpDstIp := "",
        udpDstPort := DEFAULT_UDP_DST_PORT),
      setup := Setup(
        detectorType := Generic, writeToFile := false,
        extsig := seq(NUM_EXTSIG, _ => EXTSIG_DEFAULT), settingsPath := "", badChannels := "none"),
      registers := s.registers)
  }

  /** The state a fresh `Detector(shmId)` starts in. */
  function Initial(shmId: int): (r: DetectorState)
    ensures r.Valid() && r.Size() == 0 && r.shmId == shmId
    ensures r.registers == map[] && r.acquisition.neededFrames == 0
  {
    Defaults(DetectorState(shmId, [], ModuleVectors([], [], [], [], [], []),
      Acquisition(Idle, 0, 0, 0, 0, 0, 0, AutoTiming, 0), Network(0, 0, "", "", "", 0, "", 0),
      Setup(Generic, false, [], "", ""), map[]))
  }

  /** `setHostname(h)`: everything reset, then one module per host with settings
      UNINITIALIZED, high voltage 0, chip power off, file path "/tmp", file name "run" and
      file index 0. */
  function WithHosts(s: DetectorState, h: seq<string>): (r: DetectorState)
    ensures r.Valid() && r.Size() == |h| && r.hostname == h
  {
    Defaults(s).(
      hostname := h,
      modules := ModuleVectors(
        settings := seq(|h|, _ => Uninitialized),
        filePath := seq(|h|, _ => "/tmp"),
        fileName := seq(|h|, _ => "run"),
        fileIndex := seq(|h|, _ => 0),
        highVoltage := seq(|h|, _ => 0),
        powerChip := seq(|h|, _ => false)))
  }

  /** What a module of a freshly configured host list reports, whatever it was before. */
  lemma WithHostsModuleDefaults(s: DetectorState, h: seq<string>, i: int)
    requires 0 <= i < |h|
    ensures var m := WithHosts(s, h).modules;
      m.settings[i] == Uninitialized && m.highVoltage[i] == 0 && !m.powerChip[i]
      && m.filePath[i] == "/tmp" && m.fileName[i] == "run" && m.fileIndex[i] == 0
    ensures WithHosts(s, h) == WithHosts(Defaults(s), h)
  {
  }

  // ----- positions -----

  predicate AllIn(pos: seq<int>, n: int) {
    forall k | 0 <= k < |pos| :: 0 <= pos[k] < n
  }

  /** The positions a setter gets to write before it meets the first invalid one and throws:
      the longest prefix of `pos` made of valid indices. */
  function WrittenPrefix(pos: seq<int>, n: int): (r: seq<int>)
    ensures r <= pos && AllIn(r, n)
    ensures r == pos || !(0 <= pos[|r|] < n)
  {
    if pos == [] || !(0 <= pos[0] < n) then [] else [pos[0]] + WrittenPrefix(pos[1..], n)
  }

  /** Writes `x` at `pos[0]`, `pos[1]`, ... in turn and stops at the first invalid position. */
  function AssignEach<T>(v: seq<T>, x: T, pos: seq<int>): (r: seq<T>)
    ensures |r| == |v|
    ensures forall i | 0 <= i < |v| :: r[i] == if i in WrittenPrefix(pos, |v|) then x else v[i]
    decreases |pos|
  {
    if pos == [] || !(0 <= pos[0] < |v|) then v
    else
      var r := AssignEach(v[pos[0] := x], x, pos[1..]);
      assert WrittenPrefix(pos, |v|) == [pos[0]] + WrittenPrefix(pos[1..], |v|);
      r
  }

  /** The vector after `setX(x, pos)`: all modules for an empty position list, otherwise the
      listed positions up to the first invalid one. */
  function Assigned<T>(v: seq<T>, x: T, pos: seq<int>): seq<T> {
    if pos == [] then seq(|v|, _ => x) else AssignEach(v, x, pos)
  }

  /** `setX(x, pos)` throws exactly when some listed position is not a module. */
  predicate SetterThrows(n: int, pos: seq<int>) {
    pos != [] && !AllIn(pos, n)
  }

  /** `getX(pos)`: the whole vector for an empty position list, otherwise the entries at the
      listed positions, or the exception `who : position not found!`. */
  function Gathered<T>(v: seq<T>, pos: seq<int>, who: string): (r: Result<seq<T>>)
    ensures r.Ok? <==> pos == [] || AllIn(pos, |v|)
    ensures r.Ok? && pos != [] ==>
              (|r.value| == |pos| && forall k | 0 <= k < |pos| :: r.value[k] == v[pos[k]])
  {
    if pos == [] then Ok(v)
    else if AllIn(pos, |v|) then Ok(seq(|pos|, k requires 0 <= k < |pos| => v[pos[k]]))
    else Err(who + " : position not found!")
  }

  /** Reading back what a setter wrote: every listed position (or every module) holds the new
      value, and a setter that threw still wrote the positions before the bad one. */
  lemma {:induction false} AssignedThenGathered<T>(v: seq<T>, x: T, pos: seq<int>, who: string)
    ensures |Assigned(v, x, pos)| == |v|
    ensures !SetterThrows(|v|, pos) ==>
      var g := Gathered(Assigned(v, x, pos), pos, who);
      g.Ok? && forall k | 0 <= k < |g.value| :: g.value[k] == x
    ensures forall k | 0 <= k < |WrittenPrefix(pos, |v|)| :: Assigned(v, x, pos)[WrittenPrefix(pos, |v|)[k]] == x
  {
    var w := Assigned(v, x, pos);
    if pos != [] {
      if AllIn(pos, |v|) {
        PrefixOfAllIn(pos, |v|);
        forall k | 0 <= k < |pos|
          ensures w[pos[k]] == x
        {
          assert pos[k] in WrittenPrefix(pos, |v|);
        }
      }
      forall k | 0 <= k < |WrittenPrefix(pos, |v|)|
        ensures w[WrittenPrefix(pos, |v|)[k]] == x
      {
        assert WrittenPrefix(pos, |v|)[k] in WrittenPrefix(pos, |v|);
      }
    }
  }

  lemma {:induction false} PrefixOfAllIn(pos: seq<int>, n: int)
    requires AllIn(pos, n)
    ensures WrittenPrefix(pos, n) == pos
  {
    if pos != [] {
      PrefixOfAllIn(pos[1..], n);
      assert [pos[0]] + pos[1..] == pos;
    }
  }

  /** A setter changes nothing outside the positions it writes. */
  lemma AssignedKeepsOthers<T>(v: seq<T>, x: T, pos: seq<int>, i: int)
    requires pos != [] && 0 <= i < |v| && i !in pos
    ensures Assigned(v, x, pos)[i] == v[i]
  {
  }

  // ----- name tables -----

  /** `detector_settings_string`. */
  function SettingsName(s: DetectorSettings): string {
    match s
    case Standard => "standard"
    case Fast => "fast"
    case HighGain => "highgain"
    case DynamicGain => "dynamicgain"
    case LowGain => "lowgain"
    case MediumGain => "mediumgain"
    case VeryHighGain => "veryhighgain"
    case DynamicHG0 => "dynamichg0"
    case FixGain1 => "fixgain1"
    case FixGain2 => "fixgain2"
    case ForceSwitchG1 => "forceswitchg1"
    case ForceSwitchG2 => "forceswitchg2"
    case VeryLowGain => "verylowgain"
    case G1HighGain => "g1_hg"
    case G1LowGain => "g1_lg"
    case G2HighCapHighGain => "g2_hc_hg"
    case G2HighCapLowGain => "g2_hc_lg"
    case G2LowCapHighGain => "g2_lc_hg"
    case G2LowCapLowGain => "g2_lc_lg"
    case G4HighGain => "g4_hg"
    case G4LowGain => "g4_lg"
    case Undefined => "undefined"
    case Uninitialized => "uninitialized"
  }

  /** `detector_settings_from_string[name]`: the inverse table, where a missing name is
      default-inserted as 0, i.e. STANDARD. */
  function SettingsFromName(name: string): DetectorSettings {
    if name == "fast" then Fast else if name == "highgain" then HighGain
    else if name == "dynamicgain" then DynamicGain else if name == "lowgain" then LowGain
    else if name == "mediumgain" then MediumGain else if name == "veryhighgain" then VeryHighGain
    else if name == "dynamichg0" then DynamicHG0 else if name == "fixgain1" then FixGain1
    else if name == "fixgain2" then FixGain2 else if name == "forceswitchg1" then ForceSwitchG1
    else if name == "forceswitchg2" then ForceSwitchG2 else if name == "verylowgain" then VeryLowGain
    else if name == "g1_hg" then G1HighGain else if name == "g1_lg" then G1LowGain
    else if name == "g2_hc_hg" then G2HighCapHighGain else if name == "g2_hc_lg" then G2HighCapLowGain
    else if name == "g2_lc_hg" then G2LowCapHighGain else if name == "g2_lc_lg" then G2LowCapLowGain
    else if name == "g4_hg" then G4HighGain else if name == "g4_lg" then G4LowGain
    else if name == "undefined" then Undefined else if name == "uninitialized" then Uninitialized
    else Standard
  }

  /** The two settings tables are inverse. */
  lemma SettingsNames(s: DetectorSettings)
    ensures SettingsFromName(SettingsName(s)) == s
  {
    if s in {Standard, Fast, HighGain, DynamicGain} {
      SettingsNames1(s);
    }
    if s in {LowGain, MediumGain, VeryHighGain, DynamicHG0} {
      SettingsNames2(s);
    }
    if s in {FixGain1, FixGain2, ForceSwitchG1, ForceSwitchG2} {
      SettingsNames3(s);
    }
    if s in {VeryLowGain, G1HighGain} {
      SettingsNames4(s);
    }
    if s in {G1LowGain, G2HighCapHighGain} {
      SettingsNames5(s);
    }
    if s in {G2HighCapLowGain, G2LowCapHighGain} {
      SettingsNames6(s);
    }
    if s in {G2LowCapLowGain, G4HighGain} {
      SettingsNames7(s);
    }
    if s in {G4LowGain, Undefined} {
      SettingsNames8(s);
    }
    if s in {Uninitialized} {
      SettingsNames9(s);
    }
  }

  /** `SettingsNames` for Standard, Fast, HighGain and DynamicGain. */
  lemma SettingsNames1(s: DetectorSettings)
    requires s in {Standard, Fast, HighGain, DynamicGain}
    ensures SettingsFromName(SettingsName(s)) == s
  {
    match s
    case Standard =>
    case Fast =>
    case HighGain =>
    case DynamicGain =>
    case _ => assert false;
  }

  /** `SettingsNames` for LowGain, MediumGain, VeryHighGain and DynamicHG0. */
  lemma SettingsNames2(s: DetectorSettings)
    requires s in {LowGain, MediumGain, VeryHighGain, DynamicHG0}
    ensures SettingsFromName(SettingsName(s)) == s
  {
    match s
    case LowGain =>
    case MediumGain =>
    case VeryHighGain =>
    case DynamicHG0 =>
    case _ => assert false;
  }

  /** `SettingsNames` for FixGain1, FixGain2, ForceSwitchG1 and ForceSwitchG2. */
  lemma SettingsNames3(s: DetectorSettings)
    requires s in {FixGain1, FixGain2, ForceSwitchG1, ForceSwitchG2}
    ensures SettingsFromName(SettingsName(s)) == s
  {
    match s
    case FixGain1 =>
    case FixGain2 =>
    case ForceSwitchG1 =>
    case ForceSwitchG2 =>
    case _ => assert false;
  }

  /** `SettingsNames` for VeryLowGain and G1HighGain. */
  lemma SettingsNames4(s: DetectorSettings)
    requires s in {VeryLowGain, G1HighGain}
    ensures SettingsFromName(SettingsName(s)) == s
  {
    match s
    case VeryLowGain =>
    case G1HighGain =>
    case _ => assert false;
  }

  /** `SettingsNames` for G1LowGain and G2HighCapHighGain. */
  lemma SettingsNames5(s: DetectorSettings)
    requires s in {G1LowGain, G2HighCapHighGain}
    ensures SettingsFromName(SettingsName(s)) == s
  {
    match s
    case G1LowGain =>
    case G2HighCapHighGain =>
    case _ => assert false;
  }

  /** `SettingsNames` for G2HighCapLowGain and G2LowCapHighGain. */
  lemma SettingsNames6(s: DetectorSettings)
    requires s in {G2HighCapLowGain, G2LowCapHighGain}
    ensures SettingsFromName(SettingsName(s)) == s
  {
    match s
    case G2HighCapLowGain =>
    case G2LowCapHighGain =>
    case _ => assert false;
  }

  /** `SettingsNames` for G2LowCapLowGain and G4HighGain. */
  lemma SettingsNames7(s: DetectorSettings)
    requires s in {G2LowCapLowGain, G4HighGain}
    ensures SettingsFromName(SettingsName(s)) == s
  {
    match s
    case G2LowCapLowGain =>
    case G4HighGain =>
    case _ => assert false;
  }

  /** `SettingsNames` for G4LowGain and Undefined. */
  lemma SettingsNames8(s: DetectorSettings)
    requires s in {G4LowGain, Undefined}
    ensures SettingsFromName(SettingsName(s)) == s
  {
    match s
    case G4LowGain =>
    case Undefined =>
    case _ => assert false;
  }

  /** `SettingsNames` for Uninitialized. */
  lemma SettingsNames9(s: DetectorSettings)
    requires s in {Uninitialized}
    ensures SettingsFromName(SettingsName(s)) == s
  {
    match s
    case Uninitialized =>
    case _ => assert false;
  }

  /** A name missing from the table reads as STANDARD. */
  lemma SettingsLookupDefault(name: string)
    ensures SettingsName(SettingsFromName(name)) == name || SettingsFromName(name) == Standard
  {
    if name == "fast" {
    } else if name == "highgain" {
    } else if name == "dynamicgain" {
    } else if name == "lowgain" {
    } else if name == "mediumgain" {
    } else if name == "veryhighgain" {
    } else if name == "dynamichg0" {
    } else if name == "fixgain1" {
    } else if name == "fixgain2" {
    } else if name == "forceswitchg1" {
    } else if name == "forceswitchg2" {
    } else if name == "verylowgain" {
    } else if name == "g1_hg" {
    } else if name == "g1_lg" {
    } else if name == "g2_hc_hg" {
    } else if name == "g2_hc_lg" {
    } else if name == "g2_lc_hg" {
    } else if name == "g2_lc_lg" {
    } else if name == "g4_hg" {
    } else if name == "g4_lg" {
    } else if name == "undefined" {
    } else if name == "uninitialized" {
    }
  }

  /** `timing_mode_string`; NUM_TIMING_MODES is named by the empty string. */
  function TimingName(m: TimingMode): string {
    match m
    case AutoTiming => "auto"
    case TriggerExposure => "trigger"
    case Gated => "gating"
    case BurstTrigger => "burst_trigger"
    case TriggerGated => "trigger_gating"
    case NumTimingModes => ""
  }

  /** `timing_mode_from_string[name]`, a missing name reading as 0 (AUTO_TIMING). */
  function TimingFromName(name: string): TimingMode {
    if name == "trigger" then TriggerExposure else if name == "gating" then Gated
    else if name == "burst_trigger" then BurstTrigger else if name == "trigger_gating" then TriggerGated
    else if name == "" then NumTimingModes else AutoTiming
  }

  /** The timing tables are inverse, and a name missing from them reads as AUTO_TIMING. */
  lemma TimingNames(m: TimingMode, name: string)
    ensures TimingFromName(TimingName(m)) == m
    ensures TimingName(TimingFromName(name)) == name || TimingFromName(name) == AutoTiming
  {
  }

  /** `run_status_string`. */
  function RunStatusName(s: RunStatus): string {
    match s
    case Idle => "idle"
    case Error => "error"
    case Waiting => "waiting"
    case RunFinished => "finished"
    case Transmitting => "transmitting"
    case Running => "running"
    case Stopped => "stopped"
  }

  /** `detector_type_string[type]`: only three types are named; looking up any other one
      inserts and returns the empty string. */
  function TypeName(t: DetectorType): string {
    match t
    case Generic => "Undefined"
    case Gotthard => "Gotthard"
    case Jungfrau => "Jungfrau"
    case _ => ""
  }

  lemma RunStatusNamesDistinct(a: RunStatus, b: RunStatus)
    ensures RunStatusName(a) == RunStatusName(b) ==> a == b
  {
  }

  // ----- lists that depend on the detector type -----

  /** `getSettingsList`. */
  function SettingsList(t: DetectorType): (r: seq<DetectorSettings>)
    ensures t == Jungfrau || t == Gotthard || t == Gotthard2 <==> r != []
    ensures r != [] ==> r[0] == DynamicGain
  {
    match t
    case Jungfrau => [DynamicGain, DynamicHG0, FixGain1, FixGain2, ForceSwitchG1, ForceSwitchG2]
    case Gotthard => [DynamicGain, HighGain, LowGain, MediumGain, VeryHighGain]
    case Gotthard2 => [DynamicGain, FixGain1, FixGain2]
    case _ => []
  }

  /** `getTimingModeList`. */
  function TimingModeList(t: DetectorType): (r: seq<TimingMode>)
    ensures t == Jungfrau || t == Gotthard || t == Gotthard2 <==> r != []
    ensures r != [] ==> r == [AutoTiming, TriggerExposure]
  {
    if t == Gotthard || t == Jungfrau || t == Gotthard2 then [AutoTiming, TriggerExposure] else []
  }

  /** `getTemperatureList`. */
  function TemperatureList(t: DetectorType): (r: seq<DacIndex>)
    ensures t == Jungfrau || t == Gotthard || t == Gotthard2 <==> r != []
    ensures r != [] ==> r == [TemperatureAdc, TemperatureFpga]
  {
    if t == Jungfrau || t == Gotthard || t == Gotthard2 then [TemperatureAdc, TemperatureFpga] else []
  }

  /** The settings, timing-mode and temperature lists offer something for the same detector
      types; for those types every settings list starts with DynamicGain, and the first
      timing mode offered is the one a fresh detector starts with. */
  lemma ListsAgree(t: DetectorType)
    ensures SettingsList(t) == [] <==> TimingModeList(t) == []
    ensures TimingModeList(t) == [] <==> TemperatureList(t) == []
    ensures TimingModeList(t) != [] ==>
      SettingsList(t)[0] == DynamicGain && TimingModeList(t)[0] == Initial(0).acquisition.timing
  {
  }

  // ----- acquisition -----

  function Max1(n: int): int {
    if n >= 1 then n else 1
  }

  /** The frames a measurement delivers: frames x max(gates, 1) x max(triggers, 1). */
  function NeededFrames(a: Acquisition): int {
    a.frames * Max1(a.gates) * Max1(a.triggers)
  }

  /** A measurement delivers at least the requested number of frames, and exactly that many
      without gates or triggers. */
  lemma NeededFramesAtLeastFrames(a: Acquisition)
    requires a.frames >= 0
    ensures NeededFrames(a) >= a.frames
    ensures a.gates <= 1 && a.triggers <= 1 ==> NeededFrames(a) == a.frames
  {
    MulMonotone(a.frames, Max1(a.gates));
    MulMonotone(a.frames * Max1(a.gates), Max1(a.triggers));
  }

  lemma MulMonotone(a: int, b: int)
    requires a >= 0 && b >= 1
    ensures a * b >= a
  {
  }

  /** `startMeasurementNoWait` (counter part): the frames to deliver and the RUNNING state;
      nothing else changes. */
  function StartMeasurement(s: DetectorState): (r: DetectorState)
    ensures r.acquisition.status == Running
    ensures r.acquisition.neededFrames == NeededFrames(s.acquisition)
    ensures r.(acquisition := r.acquisition.(neededFrames := s.acquisition.neededFrames,
                                            status := s.acquisition.status)) == s
  {
    s.(acquisition := s.acquisition.(neededFrames := NeededFrames(s.acquisition), status := Running))
  }

  /** The file index of every module advanced by one. */
  function NextFileIndex(v: seq<int>): (r: seq<int>)
    ensures |r| == |v| && forall i | 0 <= i < |v| :: r[i] == v[i] + 1
  {
    seq(|v|, i requires 0 <= i < |v| => v[i] + 1)
  }

  /** `stopDetector`: IDLE, and one more acquisition index on every module; nothing else
      changes. */
  function StopDetector(s: DetectorState): (r: DetectorState)
    requires s.Valid()
    ensures r.Valid() && r.acquisition.status == Idle
    ensures r.modules.fileIndex == NextFileIndex(s.modules.fileIndex)
    ensures r.(acquisition := s.acquisition, modules := s.modules) == s
    ensures r.acquisition.(status := s.acquisition.status) == s.acquisition
    ensures r.modules.(fileIndex := s.modules.fileIndex) == s.modules
  {
    s.(acquisition := s.acquisition.(status := Idle),
       modules := s.modules.(fileIndex := NextFileIndex(s.modules.fileIndex)))
  }

  /** One pass of the `dataWorker` loop: a running measurement with no frame left to deliver
      is stopped, a running one otherwise delivers one frame, anything else waits. */
  function DataStep(s: DetectorState): (r: DetectorState)
    requires s.Valid()
    ensures r.Valid()
  {
    if s.acquisition.status == Running && s.acquisition.neededFrames <= 0 then StopDetector(s)
    else if s.acquisition.status == Running then
      s.(acquisition := s.acquisition.(neededFrames := s.acquisition.neededFrames - 1))
    else s
  }

  /** `n` passes of the `dataWorker` loop. */
  function DataSteps(s: DetectorState, n: nat): (r: DetectorState)
    requires s.Valid()
    ensures r.Valid()
    decreases n
  {
    if n == 0 then s else DataSteps(DataStep(s), n - 1)
  }

  /** A running measurement with m frames to go delivers them in m passes and is stopped by
      the next one: IDLE, the countdown at 0 and every file index advanced, nothing else
      changed. */
  lemma {:induction false} MeasurementRunsOut(s: DetectorState, m: nat)
    requires s.Valid() && s.acquisition.status == Running && s.acquisition.neededFrames == m
    ensures DataSteps(s, m).acquisition.status == Running
    ensures DataSteps(s, m + 1) == StopDetector(s.(acquisition := s.acquisition.(neededFrames := 0)))
    decreases m
  {
    if m > 0 {
      var t := DataStep(s);
      assert t == s.(acquisition := s.acquisition.(neededFrames := m - 1));
      MeasurementRunsOut(t, m - 1);
      assert t.(acquisition := t.acquisition.(neededFrames := 0))
          == s.(acquisition := s.acquisition.(neededFrames := 0));
    }
  }

  /** `startMeasurementNoWait` followed by the data worker: after NeededFrames + 1 passes the
      detector is IDLE again with every file index advanced by one. */
  lemma MeasurementCompletes(s: DetectorState)
    requires s.Valid() && NeededFrames(s.acquisition) >= 0
    ensures var r := DataSteps(StartMeasurement(s), NeededFrames(s.acquisition) + 1);
      r.acquisition == s.acquisition.(status := Idle, neededFrames := 0)
      && r.modules == s.modules.(fileIndex := NextFileIndex(s.modules.fileIndex))
      && r.(acquisition := s.acquisition, modules := s.modules) == s
  {
    MeasurementRunsOut(StartMeasurement(s), NeededFrames(s.acquisition));
  }

  /** `setNumberOfFrames`, `setNumberOfTriggers`, `setNumberOfGates`: a negative count is
      ignored. */
  function IfNonNegative(current: int, value: int): (r: int)
    ensures value >= 0 ==> r == value
    ensures value < 0 ==> r == current
  {
    if value >= 0 then value else current
  }

  /** A negative count is a pure query, a count set twice is the second one, and the value
      kept is never negative when it starts non-negative. */
  lemma IfNonNegativeQueries(current: int, value: int, q: int)
    ensures IfNonNegative(current, -1) == current
    ensures q < 0 ==> IfNonNegative(IfNonNegative(current, value), q) == IfNonNegative(current, value)
    ensures q >= 0 ==> IfNonNegative(IfNonNegative(current, value), q) == q
    ensures current >= 0 ==> IfNonNegative(current, value) >= 0
  {
  }

  // ----- registers -----

  /** `readRegister(addr)` for one module: the last value written, or 0. */
  function RegisterValue(s: DetectorState, addr: u32): u32 {
    if addr in s.registers then s.registers[addr] else 0
  }

  function WithRegister(s: DetectorState, addr: u32, val: u32): DetectorState {
    s.(registers := s.registers[addr := val])
  }

  /** A register reads back the value last written to it, and writing one register leaves
      the others alone; a register never written reads 0. */
  lemma RegisterReadAfterWrite(s: DetectorState, addr: u32, val: u32, other: u32)
    ensures RegisterValue(WithRegister(s, addr, val), addr) == val
    ensures other != addr ==> RegisterValue(WithRegister(s, addr, val), other) == RegisterValue(s, other)
    ensures other !in s.registers ==> RegisterValue(s, other) == 0
  {
  }

  /** `getSerialNumber(pos)`: nothing for the default (empty) list, else one number per
      listed position. */
  function SerialNumbers(pos: seq<int>): (r: seq<int>)
    ensures |r| == |pos|
    ensures forall k | 0 <= k < |pos| :: r[k] == SERIAL_NUMBER_BASE + pos[k]
  {
    seq(|pos|, k requires 0 <= k < |pos| => SERIAL_NUMBER_BASE + pos[k])
  }

  /** The shape of the constant getters that, like `getFirmwareVersion`, answer nothing for
      the default (empty) position list: one copy per listed position. */
  function PerPosition<T>(x: T, pos: seq<int>): (r: seq<T>)
    ensures |r| == |pos| && forall k | 0 <= k < |r| :: r[k] == x
  {
    seq(|pos|, _ => x)
  }

  /** The shape of the getters that, like `getNumberOfFrames`, answer one value for the default
      (empty) position list and one copy per position otherwise. */
  function OneOrPerPosition<T>(x: T, pos: seq<int>): (r: seq<T>)
    ensures |r| == if pos == [] then 1 else |pos|
    ensures forall k | 0 <= k < |r| :: r[k] == x
  {
    if pos == [] then [x] else seq(|pos|, _ => x)
  }

  /** The two getter shapes agree on every non-empty position list and differ only on the
      default one, where the constant getters answer nothing and the others one value. */
  lemma PositionShapesAgree<T>(x: T, pos: seq<int>)
    ensures pos != [] ==> OneOrPerPosition(x, pos) == PerPosition(x, pos)
    ensures PerPosition(x, []) == [] && OneOrPerPosition(x, []) == [x]
  {
  }

  /** Different positions get different serial numbers, and the position is the serial
      number less SERIAL_NUMBER_BASE. */
  lemma SerialNumbersDistinct(pos: seq<int>, i: nat, j: nat)
    requires i < |pos| && j < |pos|
    ensures SerialNumbers(pos)[i] == SerialNumbers(pos)[j] <==> pos[i] == pos[j]
    ensures SerialNumbers(pos)[i] - SERIAL_NUMBER_BASE == pos[i]
  {
  }
}
