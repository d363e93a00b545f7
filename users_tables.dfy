// The static name tables of the legacy `slsDetectorUsers` interface.

module UsersTables {
  import opened Wrappers
  import SimDefs

  /** `runStatusType(s)`: the name of a legacy run status code. */
  function RunStatusType(s: int): string {
    match s
    case 0 => "idle"
    case 1 => "error"
    case 2 => "waiting"
    case 3 => "finished"
    case 4 => "data"
    case 5 => "running"
    case _ => "unknown"
  }

  /** Codes 0 to 5 have a name each, and every other code is "unknown". */
  lemma RunStatusTypeNames(s: int, t: int)
    ensures RunStatusType(s) == "unknown" <==> !(0 <= s <= 5)
    ensures 0 <= s <= 5 && 0 <= t <= 5 && s != t ==> RunStatusType(s) != RunStatusType(t)
  {
  }

  /** `getDetectorSettings(int)`: the name of a settings index, "undefined" outside 0..6. */
  function SettingsName(s: int): string {
    match s
    case 0 => "standard"
    case 1 => "fast"
    case 2 => "highgain"
    case 3 => "dynamicgain"
    case 4 => "lowgain"
    case 5 => "mediumgain"
    case 6 => "veryhighgain"
    case _ => "undefined"
  }

  /** `getDetectorSettings(string)`: the index of a settings name, -1 for any other word. */
  function SettingsIndex(name: string): int {
    if name == "standard" then 0
    else if name == "fast" then 1
    else if name == "highgain" then 2
    else if name == "dynamicgain" then 3
    else if name == "lowgain" then 4
    else if name == "mediumgain" then 5
    else if name == "veryhighgain" then 6
    else -1
  }

  /** The two settings tables are inverse to each other on 0..6. */
  lemma SettingsRoundTrip(s: int)
    requires 0 <= s <= 6
    ensures SettingsIndex(SettingsName(s)) == s
  {
  }

  /** A settings name that has an index is the name of that index; an unknown name maps to
      -1 and an unknown index to "undefined". */
  lemma SettingsIndexInverse(name: string, s: int)
    ensures SettingsIndex(name) != -1 ==> SettingsName(SettingsIndex(name)) == name
    ensures SettingsIndex(name) in {-1, 0, 1, 2, 3, 4, 5, 6}
    ensures !(0 <= s <= 6) ==> SettingsName(s) == "undefined"
  {
  }

  /** `getTimingMode(int)`: the name of a legacy timing mode, "unknown" outside 0..4. */
  function TimingModeName(f: int): string {
    match f
    case 0 => "auto"
    case 1 => "trigger"
    case 2 => "ro_trigger"
    case 3 => "gating"
    case 4 => "triggered_gating"
    case _ => "unknown"
  }

  /** `getTimingMode(string)`: the index of a timing mode name, -1 for any other word. */
  function TimingModeIndex(s: string): int {
    if s == "auto" then 0
    else if s == "trigger" then 1
    else if s == "ro_trigger" then 2
    else if s == "gating" then 3
    else if s == "triggered_gating" then 4
    else -1
  }

  /** The two timing tables are inverse to each other on 0..4, and unknown values map to
      "unknown" and -1. */
  lemma TimingModeRoundTrip(f: int, s: string)
    ensures 0 <= f <= 4 ==> TimingModeIndex(TimingModeName(f)) == f
    ensures TimingModeIndex(s) != -1 ==> TimingModeName(TimingModeIndex(s)) == s
    ensures !(0 <= f <= 4) ==> TimingModeName(f) == "unknown"
    ensures TimingModeIndex(s) in {-1, 0, 1, 2, 3, 4}
  {
  }

  /** The legacy `detector_type_string` table, which only names three types. */
  function DetectorTypeName(t: int): Option<string> {
    if t == SimDefs.DetectorType.Generic.Code() then Some("Undefined")
    else if t == SimDefs.DetectorType.Gotthard.Code() then Some("Gotthard")
    else if t == SimDefs.DetectorType.Jungfrau.Code() then Some("Jungfrau")
    else None
  }

  /** `getDetectorType()`: the table's name of the type, the GENERIC name "Undefined" for a
      type the table does not know. */
  function TypeReply(t: int): (r: string)
    ensures DetectorTypeName(t).Some? ==> r == DetectorTypeName(t).value
    ensures DetectorTypeName(t).None? ==> r == "Undefined"
  {
    match DetectorTypeName(t)
    case Some(name) => name
    case None => DetectorTypeName(SimDefs.DetectorType.Generic.Code()).value
  }

  /** Only the codes of GENERIC, GOTTHARD and JUNGFRAU have their own name. */
  lemma TypeReplyNames(t: int)
    ensures TypeReply(t) == "Gotthard" <==> t == 2
    ensures TypeReply(t) == "Jungfrau" <==> t == 3
    ensures TypeReply(t) == "Undefined" <==> t != 2 && t != 3
  {
  }

  /** The callbacks the legacy interface declares but does not provide. */
  datatype Callback =
    | Data | RawData | AcquisitionFinished | GetPosition | ConnectChannels | DisconnectChannels
    | GoToPosition | GoToPositionNoWait | GetI0

  function CallbackName(c: Callback): string {
    match c
    case Data => "registerDataCallback"
    case RawData => "registerRawDataCallback"
    case AcquisitionFinished => "registerAcquisitionFinishedCallback"
    case GetPosition => "registerGetPositionCallback"
    case ConnectChannels => "registerConnectChannelsCallback"
    case DisconnectChannels => "registerDisconnectChannelsCallback"
    case GoToPosition => "registerGoToPositionCallback"
    case GoToPositionNoWait => "registerGoToPositionNoWaitCallback"
    case GetI0 => "registerGetI0Callback"
  }

  /** Registering any callback throws a `std::runtime_error` naming the member. */
  function RegisterCallback(c: Callback): (r: Result<()>)
    ensures r.Err? && r.message == "slsDetectorUsers::" + CallbackName(c) + " not implemented"
  {
    Err("slsDetectorUsers::" + CallbackName(c) + " not implemented")
  }

  /** Every stub throws, and the messages tell the stubs apart. */
  lemma RegisterCallbackThrows(c: Callback, d: Callback)
    ensures RegisterCallback(c).Err?
    ensures c != d ==> RegisterCallback(c) != RegisterCallback(d)
  {
    if c != d {
      CallbackNamesDistinct(c, d);
      MessageNamesMember(CallbackName(c), CallbackName(d));
    }
  }

  lemma CallbackNamesDistinct(c: Callback, d: Callback)
    requires c != d
    ensures CallbackName(c) != CallbackName(d)
  {
  }

  /** The stub message determines the member name in it. */
  lemma MessageNamesMember(x: string, y: string)
    ensures "slsDetectorUsers::" + x + " not implemented" == "slsDetectorUsers::" + y + " not implemented" ==> x == y
  {
    var m, t := "slsDetectorUsers::", " not implemented";
    if m + x + t == m + y + t {
      assert |x| == |y|;
      assert x == (m + x + t)[|m|..|m| + |x|];
      assert y == (m + y + t)[|m|..|m| + |y|];
    }
  }
}
