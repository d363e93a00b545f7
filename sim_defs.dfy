/** The enumerations and plain records shared by the simulated detector and receivers: the
    numbering of detector settings, detector types, timing modes and run states, the return
    codes, the packet header and the current-source parameter record. */
module SimDefs {
  import opened Wrappers

  const SLS_RX_DEFAULT_PORT: int := 1954
  const MAX_LEN: int := 256
  const MAX_NUM_PACKETS: nat := 512

  datatype ReturnCode = OK | FAIL {
    function Code(): int {
      match this
      case OK => 0
      case FAIL => 1
    }
  }

  datatype DetectorSettings =
    | Standard | Fast | HighGain | DynamicGain | LowGain | MediumGain | VeryHighGain
    | DynamicHG0 | FixGain1 | FixGain2 | ForceSwitchG1 | ForceSwitchG2 | VeryLowGain
    | G1HighGain | G1LowGain | G2HighCapHighGain | G2HighCapLowGain | G2LowCapHighGain
    | G2LowCapLowGain | G4HighGain | G4LowGain | Undefined | Uninitialized
  {
    /** The value of the C++ enumerator. */
    function Code(): int {
      match this
      case Standard => 0
      case Fast => 1
      case HighGain => 2
      case DynamicGain => 3
      case LowGain => 4
      case MediumGain => 5
      case VeryHighGain => 6
      case DynamicHG0 => 7
      case FixGain1 => 8
      case FixGain2 => 9
      case ForceSwitchG1 => 10
      case ForceSwitchG2 => 11
      case VeryLowGain => 12
      case G1HighGain => 13
      case G1LowGain => 14
      case G2HighCapHighGain => 15
      case G2HighCapLowGain => 16
      case G2LowCapHighGain => 17
      case G2LowCapLowGain => 18
      case G4HighGain => 19
      case G4LowGain => 20
      case Undefined => 200
      case Uninitialized => 201
    }
  }

  /** The enumerator with value n, if there is one. */
  function SettingsFromCode(n: int): (r: Option<DetectorSettings>)
    ensures r.Some? <==> (0 <= n <= 20 || n == 200 || n == 201)
  {
    if n == 0 then Some(Standard) else if n == 1 then Some(Fast)
    else if n == 2 then Some(HighGain) else if n == 3 then Some(DynamicGain)
    else if n == 4 then Some(LowGain) else if n == 5 then Some(MediumGain)
    else if n == 6 then Some(VeryHighGain) else if n == 7 then Some(DynamicHG0)
    else if n == 8 then Some(FixGain1) else if n == 9 then Some(FixGain2)
    else if n == 10 then Some(ForceSwitchG1) else if n == 11 then Some(ForceSwitchG2)
    else if n == 12 then Some(VeryLowGain) else if n == 13 then Some(G1HighGain)
    else if n == 14 then Some(G1LowGain) else if n == 15 then Some(G2HighCapHighGain)
    else if n == 16 then Some(G2HighCapLowGain) else if n == 17 then Some(G2LowCapHighGain)
    else if n == 18 then Some(G2LowCapLowGain) else if n == 19 then Some(G4HighGain)
    else if n == 20 then Some(G4LowGain) else if n == 200 then Some(Undefined)
    else if n == 201 then Some(Uninitialized) else None
  }

  /** The settings numbering: consecutive from STANDARD = 0 to G4_LOWGAIN = 20, then
      UNDEFINED = 200 and UNINITIALIZED = 201, and decoding inverts it. */
  lemma SettingsCodes(s: DetectorSettings)
    ensures 0 <= s.Code() <= 20 || s.Code() == 200 || s.Code() == 201
    ensures SettingsFromCode(s.Code()) == Some(s)
  {
  }

  lemma SettingsCodesDistinct(s: DetectorSettings, t: DetectorSettings)
    ensures s.Code() == t.Code() ==> s == t
  {
    SettingsCodes(s);
    SettingsCodes(t);
  }

  datatype DetectorType =
    | Generic | Eiger | Gotthard | Jungfrau | ChipTestBoard | Moench | Mythen3 | Gotthard2
  {
    function Code(): int {
      match this
      case Generic => 0
      case Eiger => 1
      case Gotthard => 2
      case Jungfrau => 3
      case ChipTestBoard => 4
      case Moench => 5
      case Mythen3 => 6
      case Gotthard2 => 7
    }
  }

  function DetectorTypeFromCode(n: int): (r: Option<DetectorType>)
    ensures r.Some? <==> 0 <= n <= 7
  {
    if n == 0 then Some(Generic) else if n == 1 then Some(Eiger)
    else if n == 2 then Some(Gotthard) else if n == 3 then Some(Jungfrau)
    else if n == 4 then Some(ChipTestBoard) else if n == 5 then Some(Moench)
    else if n == 6 then Some(Mythen3) else if n == 7 then Some(Gotthard2) else None
  }

  /** Detector types are numbered GENERIC = 0 ... GOTTHARD2 = 7. */
  lemma DetectorTypeCodes(t: DetectorType)
    ensures 0 <= t.Code() <= 7
    ensures DetectorTypeFromCode(t.Code()) == Some(t)
  {
  }

  datatype TimingMode = AutoTiming | TriggerExposure | Gated | BurstTrigger | TriggerGated | NumTimingModes {
    function Code(): int {
      match this
      case AutoTiming => 0
      case TriggerExposure => 1
      case Gated => 2
      case BurstTrigger => 3
      case TriggerGated => 4
      case NumTimingModes => 5
    }
  }

  function TimingModeFromCode(n: int): (r: Option<TimingMode>)
    ensures r.Some? <==> 0 <= n <= 5
  {
    if n == 0 then Some(AutoTiming) else if n == 1 then Some(TriggerExposure)
    else if n == 2 then Some(Gated) else if n == 3 then Some(BurstTrigger)
    else if n == 4 then Some(TriggerGated) else if n == 5 then Some(NumTimingModes) else None
  }

  /** Timing modes are numbered AUTO_TIMING = 0 ... NUM_TIMING_MODES = 5. */
  lemma TimingModeCodes(m: TimingMode)
    ensures 0 <= m.Code() <= 5
    ensures TimingModeFromCode(m.Code()) == Some(m)
  {
  }

  datatype RunStatus = Idle | Error | Waiting | RunFinished | Transmitting | Running | Stopped {
    function Code(): int {
      match this
      case Idle => 0
      case Error => 1
      case Waiting => 2
      case RunFinished => 3
      case Transmitting => 4
      case Running => 5
      case Stopped => 6
    }
  }

  function RunStatusFromCode(n: int): (r: Option<RunStatus>)
    ensures r.Some? <==> 0 <= n <= 6
  {
    if n == 0 then Some(Idle) else if n == 1 then Some(Error)
    else if n == 2 then Some(Waiting) else if n == 3 then Some(RunFinished)
    else if n == 4 then Some(Transmitting) else if n == 5 then Some(Running)
    else if n == 6 then Some(Stopped) else None
  }

  /** Run states are numbered IDLE = 0 ... STOPPED = 6. */
  lemma RunStatusCodes(s: RunStatus)
    ensures 0 <= s.Code() <= 6
    ensures RunStatusFromCode(s.Code()) == Some(s)
  {
  }

  datatype DacIndex =
    | TemperatureAdc | TemperatureFpga | TemperatureFpgaExt | Temperature10GE | TemperatureDcdc
    | TemperatureSodl | TemperatureSodr | TemperatureFpga2 | TemperatureFpga3

  newtype u8 = x: int | 0 <= x < 0x100
  newtype u16 = x: int | 0 <= x < 0x1_0000
  newtype u32 = x: int | 0 <= x < 0x1_0000_0000
  newtype u64 = x: int | 0 <= x < 0x1_0000_0000_0000_0000

  /** `sls_detector_header`: the per-frame header the receiver hands to its callbacks. */
  datatype DetectorHeader = DetectorHeader(
    frameNumber: u64, expLength: u32, packetNumber: u32, detSpec1: u64, timestamp: u64,
    modId: u16, row: u16, column: u16, detSpec2: u16, detSpec3: u32, detSpec4: u16,
    detType: u8, version: u8)

  /** `sls_bitset`: one bit per packet of a frame. */
  type PacketsMask = m: seq<bool> | |m| == MAX_NUM_PACKETS witness seq(MAX_NUM_PACKETS, _ => false)

  datatype ReceiverHeader = ReceiverHeader(detHeader: DetectorHeader, packetsMask: PacketsMask)

  /** `currentSrcParameters`; `select` is a uint64 column mask. */
  datatype CurrentSrcParameters = CurrentSrcParameters(enable: int, fix: int, normal: int, select: u64)

  /** The default constructor: current source disabled. */
  function CurrentSrcDisabled(): (p: CurrentSrcParameters)
    ensures p.enable == 0 && p.fix == -1 && p.normal == -1 && p.select == 0
  {
    CurrentSrcParameters(0, -1, -1, 0)
  }

  function BoolToInt(b: bool): int {
    if b then 1 else 0
  }

  /** The Gotthard-II form: enabled or disabled, nothing else set. */
  function CurrentSrcEnable(srcEnable: bool): (p: CurrentSrcParameters)
    ensures p.enable == (if srcEnable then 1 else 0)
    ensures p.fix == -1 && p.normal == -1 && p.select == 0
  {
    CurrentSrcParameters(BoolToInt(srcEnable), -1, -1, 0)
  }

  /** The Jungfrau chip v1.0 form: enabled, fixed or not, one column selected. */
  function CurrentSrcFixSelect(fixCurrent: bool, selectCurrent: u64): (p: CurrentSrcParameters)
    ensures p.enable == 1 && p.fix == (if fixCurrent then 1 else 0) && p.normal == -1
    ensures p.select == selectCurrent
  {
    CurrentSrcParameters(1, BoolToInt(fixCurrent), -1, selectCurrent)
  }

  /** The Jungfrau chip v1.1 form: every field given. */
  function CurrentSrcFull(fixCurrent: bool, selectCurrent: u64, normalCurrent: bool): (p: CurrentSrcParameters)
    ensures p.enable == 1 && p.fix == (if fixCurrent then 1 else 0)
    ensures p.normal == (if normalCurrent then 1 else 0) && p.select == selectCurrent
  {
    CurrentSrcParameters(1, BoolToInt(fixCurrent), BoolToInt(normalCurrent), selectCurrent)
  }

  /** Only the default form leaves the source disabled; the three-argument form is the only one
      that sets `normal`. */
  lemma CurrentSrcForms(b: bool, f: bool, s: u64, n: bool)
    ensures CurrentSrcDisabled().enable == 0 && CurrentSrcFixSelect(f, s).enable == 1
    ensures CurrentSrcEnable(b).enable != 0 <==> b
    ensures CurrentSrcFull(f, s, n).normal != -1 && CurrentSrcFixSelect(f, s).normal == -1
  {
  }
}
