/** The text command language of the simulated detector: `putCommand` and `getCommand` as
    pure functions over `DetectorState`, with the properties of the `<module>:` prefix, of the
    reply, and of reading back what was written. */
module DetectorCommands {
  import opened Wrappers
  import opened Text
  import opened SimDefs
  import opened DetectorModel

  /** A reply the model does not compute: the float text `getCommand` gives for exptime,
      period and delay. */
  const FLOAT_REPLY: string := "float reply not modelled"
  /** `operator[]` outside a vector, which is undefined behaviour in C++. */
  const UNDEFINED_INDEX: string := "index outside the vector"

  /** Position of the first `c` in `s` (`find_first_of`). */
  function FindFirst(s: string, c: char): (r: Option<nat>)
    ensures r.Some? ==> r.value < |s| && s[r.value] == c
  {
    if s == [] then None
    else if s[0] == c then Some(0)
    else match FindFirst(s[1..], c)
      case None => None
      case Some(k) => Some(k + 1)
  }

  /** The position found is the first `c`, and there is none when nothing is found. */
  lemma {:induction false} FindFirstIsFirst(s: string, c: char)
    ensures FindFirst(s, c).Some? ==> forall i | 0 <= i < FindFirst(s, c).value :: s[i] != c
    ensures FindFirst(s, c).None? <==> forall i | 0 <= i < |s| :: s[i] != c
  {
    if s != [] && s[0] != c {
      FindFirstIsFirst(s[1..], c);
      assert forall i | 1 <= i < |s| :: s[i] == s[1..][i - 1];
    }
  }

  datatype Addressed = Addressed(pos: int, parameter: string)

  /** Splits off an optional `<module>:` prefix; `std::stoi` of the prefix may throw.
      Without a prefix the position is `defaultPos` (-1, "all", for putCommand; 0 for
      getCommand). */
  function SplitModulePrefix(word: string, defaultPos: int): (r: Result<Addressed>)
    ensures FindFirst(word, ':').None? ==> r == Ok(Addressed(defaultPos, word))
    ensures FindFirst(word, ':').Some? && r.Ok? ==>
              r.value.parameter == word[FindFirst(word, ':').value + 1..]
              && StoI(word[..FindFirst(word, ':').value]) == Some(r.value.pos)
  {
    match FindFirst(word, ':')
    case None => Ok(Addressed(defaultPos, word))
    case Some(k) =>
      match StoI(word[..k])
      case None => Err(STOI_ERROR)
      case Some(p) => Ok(Addressed(p, word[k + 1..]))
  }

  /** A printed module number followed by ':' is read back as that module, whatever the
      parameter after it. */
  lemma ModulePrefixRoundTrip(k: int, parameter: string, defaultPos: int)
    requires IsInt32(k)
    ensures SplitModulePrefix(IntToString(k) + ":" + parameter, defaultPos) == Ok(Addressed(k, parameter))
  {
    var d := IntToString(k);
    var w := d + ":" + parameter;
    IntToStringChars(k);
    assert forall i | 0 <= i < |d| :: d[i] != ':';
    FindFirstAfter(d, ":" + parameter, ':');
    assert w == d + (":" + parameter);
    assert FindFirst(w, ':') == Some(|d|);
    assert w[..|d|] == d;
    assert w[|d| + 1..] == parameter;
    StoIRoundTrip(k);
    assert StoI(w[..|d|]) == Some(k);
  }

  lemma {:induction false} FindFirstAfter(a: string, b: string, c: char)
    requires forall i | 0 <= i < |a| :: a[i] != c
    requires b != [] && b[0] == c
    ensures FindFirst(a + b, c) == Some(|a|)
  {
    if a != [] {
      FindFirstAfter(a[1..], b, c);
      assert (a + b)[1..] == a[1..] + b;
    }
  }

  /** The value part of a putCommand: every argument after the first followed by a space,
      with the trailing white space trimmed. */
  function CommandValue(args: seq<string>): string
    requires |args| >= 1
  {
    TrimRight(Terminated(args[1..], " "))
  }

  /** The value is the arguments joined by single spaces, right-trimmed. */
  lemma CommandValueIsJoin(args: seq<string>)
    requires |args| >= 1
    ensures CommandValue(args) == TrimRight(Join(args[1..], " "))
  {
    if |args| > 1 {
      TerminatedIsJoinPlusSuffix(args[1..], " ");
      DropRightSpace(Join(args[1..], " "));
    }
  }

  lemma DropRightSpace(s: string)
    ensures DropRight(s + " ", IsSpace) == DropRight(s, IsSpace)
  {
    assert (s + " ")[..|s|] == s;
  }

  /** A single argument that does not end in white space is the value itself. */
  lemma CommandValueSingle(key: string, v: string)
    requires NoTrailingSpace(v)
    ensures CommandValue([key, v]) == v
  {
    assert [key, v][1..] == [v];
    assert Terminated([v], " ") == v + " ";
    DropRightSpace(v);
  }

  /** A per-module write of putCommand: one module when pos > 0, otherwise all of them (so
      both the absent prefix, -1, and an explicit "0:" broadcast). */
  function PutAt<T>(v: seq<T>, pos: int, x: T): (r: seq<T>)
    requires pos < |v|
    ensures |r| == |v|
    ensures forall i | 0 <= i < |v| :: r[i] == if pos <= 0 || i == pos then x else v[i]
  {
    if pos > 0 then v[pos := x] else seq(|v|, _ => x)
  }

  function IsPlus(c: char): bool {
    c == '+'
  }

  /** The host list of a "hostname" command: '+' trimmed at both ends, then split at '+'. */
  function HostList(value: string): seq<string> {
    Split(TrimIf(value, IsPlus), IsPlus)
  }

  /** The parameter words of the command language. */
  datatype Keyword =
    | Config | Parameters | Settings | Timing | TimingList | FPath | FName | FIndex | FWrite
    | ExpTime | Period | Delay | Gates | Frames | Triggers | LastClient | FirmwareVersion
    | SerialNumber | DetectorServerVersion | ClientVersion | RxVersion | Acquire | Status | Type
    | Hostname | ExtSig | SettingsPath | Port | StopPort | UdpSrcIp | UdpSrcMac | RxTcpPort
    | UdpDstPort | RxHostname | UdpDstIp | RxLastClient | BadChannels | HighVoltage | TempAdc
    | TempFpga | Unknown

  function KeywordName(k: Keyword): string {
    match k
    case Config => "config"
    case Parameters => "parameters"
    case Settings => "settings"
    case Timing => "timing"
    case TimingList => "timinglist"
    case FPath => "fpath"
    case FName => "fname"
    case FIndex => "findex"
    case FWrite => "fwrite"
    case ExpTime => "exptime"
    case Period => "period"
    case Delay => "delay"
    case Gates => "gates"
    case Frames => "frames"
    case Triggers => "triggers"
    case LastClient => "lastclient"
    case FirmwareVersion => "firmwareversion"
    case SerialNumber => "serialnumber"
    case DetectorServerVersion => "detectorserverversion"
    case ClientVersion => "clientversion"
    case RxVersion => "rx_version"
    case Acquire => "acquire"
    case Status => "status"
    case Type => "type"
    case Hostname => "hostname"
    case ExtSig => "extsig"
    case SettingsPath => "settingspath"
    case Port => "port"
    case StopPort => "stopport"
    case UdpSrcIp => "udp_srcip"
    case UdpSrcMac => "udp_srcmac"
    case RxTcpPort => "rx_tcpport"
    case UdpDstPort => "udp_dstport"
    case RxHostname => "rx_hostname"
    case UdpDstIp => "udp_dstip"
    case RxLastClient => "rx_lastclient"
    case BadChannels => "badchannels"
    case HighVoltage => "highvoltage"
    case TempAdc => "temp_adc"
    case TempFpga => "temp_fpga"
    case Unknown => ""
  }

  /** The only keyword a word can spell given its first letter and its length (and, where two
      keywords share both, one more letter). */
  function Candidate(word: string): Keyword {
    if word == [] then Unknown
    else if word[0] == 'a' then
      Acquire
    else if word[0] == 'b' then
      BadChannels
    else if word[0] == 'c' then
      if |word| == 6 then Config
      else if |word| == 13 then ClientVersion
      else Unknown
    else if word[0] == 'd' then
      if |word| == 5 then Delay
      else if |word| == 21 then DetectorServerVersion
      else Unknown
    else if word[0] == 'e' then
      if |word| == 6 then ExtSig
      else if |word| == 7 then ExpTime
      else Unknown
    else if word[0] == 'f' then
      if |word| == 5 then
        if word[1] == 'p' then FPath
        else if word[1] == 'n' then FName
        else Unknown
      else if |word| == 6 then
        if word[1] == 'i' then FIndex
        else if word[1] == 'w' then FWrite
        else if word[1] == 'r' then Frames
        else Unknown
      else if |word| == 15 then FirmwareVersion
      else Unknown
    else if word[0] == 'g' then
      Gates
    else if word[0] == 'h' then
      if |word| == 8 then Hostname
      else if |word| == 11 then HighVoltage
      else Unknown
    else if word[0] == 'l' then
      LastClient
    else if word[0] == 'p' then
      if |word| == 4 then Port
      else if |word| == 6 then Period
      else if |word| == 10 then Parameters
      else Unknown
    else if word[0] == 'r' then
      if |word| == 10 then
        if word[3] == 'v' then RxVersion
        else if word[3] == 't' then RxTcpPort
        else Unknown
      else if |word| == 11 then RxHostname
      else if |word| == 13 then RxLastClient
      else Unknown
    else if word[0] == 's' then
      if |word| == 6 then Status
      else if |word| == 8 then
        if word[1] == 'e' then Settings
        else if word[1] == 't' then StopPort
        else Unknown
      else if |word| == 12 then
        if word[2] == 'r' then SerialNumber
        else if word[2] == 't' then SettingsPath
        else Unknown
      else Unknown
    else if word[0] == 't' then
      if |word| == 4 then Type
      else if |word| == 6 then Timing
      else if |word| == 8 then
        if word[1] == 'r' then Triggers
        else if word[1] == 'e' then TempAdc
        else Unknown
      else if |word| == 9 then TempFpga
      else if |word| == 10 then TimingList
      else Unknown
    else if word[0] == 'u' then
      if |word| == 9 then
        if word[4] == 's' then UdpSrcIp
        else if word[4] == 'd' then UdpDstIp
        else Unknown
      else if |word| == 10 then UdpSrcMac
      else if |word| == 11 then UdpDstPort
      else Unknown
    else Unknown
  }


  /** The keyword a parameter word spells, `Unknown` for any other word: the one candidate
      for the word, if the word spells it.  `KeywordNames` and `KeywordOfSpells` show this is
      the map of the chain of comparisons in putCommand and getCommand. */
  function KeywordOf(word: string): Keyword {
    var k := Candidate(word);
    if KeywordName(k) == word then k else Unknown
  }

  /** Spelling a keyword and reading it back gives the keyword. */
  lemma KeywordNames(k: Keyword)
    requires k != Unknown
    ensures KeywordOf(KeywordName(k)) == k
  {
    if k in {Config, Parameters, Settings, Timing} {
      KeywordNames1(k);
    }
    if k in {TimingList, FPath, FName, FIndex} {
      KeywordNames2(k);
    }
    if k in {FWrite, ExpTime, Period, Delay} {
      KeywordNames3(k);
    }
    if k in {Gates, Frames, Triggers, LastClient} {
      KeywordNames4(k);
    }
    if k in {FirmwareVersion, SerialNumber} {
      KeywordNames5(k);
    }
    if k in {DetectorServerVersion, ClientVersion} {
      KeywordNames11(k);
    }
    if k in {RxVersion, Acquire, Status, Type} {
      KeywordNames6(k);
    }
    if k in {Hostname, ExtSig, SettingsPath, Port} {
      KeywordNames7(k);
    }
    if k in {StopPort, UdpSrcIp, UdpSrcMac, RxTcpPort} {
      KeywordNames8(k);
    }
    if k in {UdpDstPort, RxHostname, UdpDstIp, RxLastClient} {
      KeywordNames9(k);
    }
    if k in {BadChannels, HighVoltage, TempAdc, TempFpga} {
      KeywordNames10(k);
    }
  }

  /** `KeywordNames` for Config, Parameters, Settings and Timing. */
  lemma KeywordNames1(k: Keyword)
    requires k in {Config, Parameters, Settings, Timing}
    ensures KeywordOf(KeywordName(k)) == k
  {
    match k
    case Config =>
    case Parameters =>
    case Settings =>
    case Timing =>
    case _ => assert false;
  }

  /** `KeywordNames` for TimingList, FPath, FName and FIndex. */
  lemma KeywordNames2(k: Keyword)
    requires k in {TimingList, FPath, FName, FIndex}
    ensures KeywordOf(KeywordName(k)) == k
  {
    match k
    case TimingList =>
    case FPath =>
    case FName =>
    case FIndex =>
    case _ => assert false;
  }

  /** `KeywordNames` for FWrite, ExpTime, Period and Delay. */
  lemma KeywordNames3(k: Keyword)
    requires k in {FWrite, ExpTime, Period, Delay}
    ensures KeywordOf(KeywordName(k)) == k
  {
    match k
    case FWrite =>
    case ExpTime =>
    case Period =>
    case Delay =>
    case _ => assert false;
  }

  /** `KeywordNames` for Gates, Frames, Triggers and LastClient. */
  lemma KeywordNames4(k: Keyword)
    requires k in {Gates, Frames, Triggers, LastClient}
    ensures KeywordOf(KeywordName(k)) == k
  {
    match k
    case Gates =>
    case Frames =>
    case Triggers =>
    case LastClient =>
    case _ => assert false;
  }

  /** `KeywordNames` for FirmwareVersion and SerialNumber. */
  lemma KeywordNames5(k: Keyword)
    requires k in {FirmwareVersion, SerialNumber}
    ensures KeywordOf(KeywordName(k)) == k
  {
    match k
    case FirmwareVersion =>
    case SerialNumber =>
    case _ => assert false;
  }

  /** `KeywordNames` for DetectorServerVersion and ClientVersion. */
  lemma KeywordNames11(k: Keyword)
    requires k in {DetectorServerVersion, ClientVersion}
    ensures KeywordOf(KeywordName(k)) == k
  {
    match k
    case DetectorServerVersion =>
    case ClientVersion =>
    case _ => assert false;
  }

  /** `KeywordNames` for RxVersion, Acquire, Status and Type. */
  lemma KeywordNames6(k: Keyword)
    requires k in {RxVersion, Acquire, Status, Type}
    ensures KeywordOf(KeywordName(k)) == k
  {
    match k
    case RxVersion =>
    case Acquire =>
    case Status =>
    case Type =>
    case _ => assert false;
  }

  /** `KeywordNames` for Hostname, ExtSig, SettingsPath and Port. */
  lemma KeywordNames7(k: Keyword)
    requires k in {Hostname, ExtSig, SettingsPath, Port}
    ensures KeywordOf(KeywordName(k)) == k
  {
    match k
    case Hostname =>
    case ExtSig =>
    case SettingsPath =>
    case Port =>
    case _ => assert false;
  }

  /** `KeywordNames` for StopPort, UdpSrcIp, UdpSrcMac and RxTcpPort. */
  lemma KeywordNames8(k: Keyword)
    requires k in {StopPort, UdpSrcIp, UdpSrcMac, RxTcpPort}
    ensures KeywordOf(KeywordName(k)) == k
  {
    match k
    case StopPort =>
    case UdpSrcIp =>
    case UdpSrcMac =>
    case RxTcpPort =>
    case _ => assert false;
  }

  /** `KeywordNames` for UdpDstPort, RxHostname, UdpDstIp and RxLastClient. */
  lemma KeywordNames9(k: Keyword)
    requires k in {UdpDstPort, RxHostname, UdpDstIp, RxLastClient}
    ensures KeywordOf(KeywordName(k)) == k
  {
    match k
    case UdpDstPort =>
    case RxHostname =>
    case UdpDstIp =>
    case RxLastClient =>
    case _ => assert false;
  }

  /** `KeywordNames` for BadChannels, HighVoltage, TempAdc and TempFpga. */
  lemma KeywordNames10(k: Keyword)
    requires k in {BadChannels, HighVoltage, TempAdc, TempFpga}
    ensures KeywordOf(KeywordName(k)) == k
  {
    match k
    case BadChannels =>
    case HighVoltage =>
    case TempAdc =>
    case TempFpga =>
    case _ => assert false;
  }

  /** A word is read as a keyword only if it spells that keyword. */
  lemma KeywordOfSpells(word: string)
    ensures KeywordOf(word) == Unknown || KeywordName(KeywordOf(word)) == word
  {
  }

  /** The keywords putCommand acts on; it answers any other word with "". */
  predicate PutAccepts(k: Keyword) {
    match k
    case Config | Parameters | Settings | Timing | FPath | FName | FIndex | FWrite | ExpTime
      | Period | Delay | Gates | Frames | Triggers | Status | Type | Hostname | ExtSig
      | SettingsPath | Port | StopPort | UdpSrcIp | UdpSrcMac | RxTcpPort | UdpDstPort
      | RxHostname | UdpDstIp | BadChannels | HighVoltage => true
    case _ => false
  }

  /** One parameter of putCommand, for a module position that passed the `pos >= size()`
      check. */
  function PutParameter(s: DetectorState, k: Keyword, pos: int, value: string, rest: seq<string>): (r: (DetectorState, Result<string>))
    requires s.Valid() && pos < s.Size()
    ensures r.0.Valid() && r.0.shmId == s.shmId
  {
    match k
    case Config => (Defaults(s), Ok(value)) // the configuration file itself is not read
    case Parameters | Type | ExpTime | Period | Delay => (s, Ok(value))
    case Settings => (s.(modules := s.modules.(settings := PutAt(s.modules.settings, pos, SettingsFromName(value)))), Ok(value))
    case Timing => (s.(acquisition := s.acquisition.(timing := TimingFromName(value))), Ok(value))
    case FPath => (s.(modules := s.modules.(filePath := PutAt(s.modules.filePath, pos, value))), Ok(value))
    case FName => (s.(modules := s.modules.(fileName := PutAt(s.modules.fileName, pos, value))), Ok(value))
    case FIndex =>
      (match StoLL(value)
       case None => (s, Err(STOLL_ERROR))
       case Some(n) => (s.(modules := s.modules.(fileIndex := PutAt(s.modules.fileIndex, pos, n))), Ok(value)))
    case FWrite =>
      (match StoI(value)
       case None => (s, Err(STOI_ERROR))
       case Some(n) => (s.(setup := s.setup.(writeToFile := n != 0)), Ok(value)))
    case Gates =>
      (match StoLL(value)
       case None => (s, Err(STOLL_ERROR))
       case Some(n) => (s.(acquisition := s.acquisition.(gates := IfNonNegative(s.acquisition.gates, n))), Ok(value)))
    case Frames =>
      (match StoLL(value)
       case None => (s, Err(STOLL_ERROR))
       case Some(n) => (s.(acquisition := s.acquisition.(frames := IfNonNegative(s.acquisition.frames, n))), Ok(value)))
    case Triggers =>
      (match StoLL(value)
       case None => (s, Err(STOLL_ERROR))
       case Some(n) => (s.(acquisition := s.acquisition.(triggers := IfNonNegative(s.acquisition.triggers, n))), Ok(value)))
    case Status =>
      (if value == "start" then StartMeasurement(s) else if value == "stop" then StopDetector(s) else s, Ok(value))
    case Hostname => (WithHosts(s, HostList(value)), Ok(value))
    case ExtSig =>
      if |rest| >= 2 then
        (match StoI(rest[0])
         case None => (s, Err(STOI_ERROR))
         case Some(n) => (if 0 <= n <= 3 then s.(setup := s.setup.(extsig := s.setup.extsig[n := rest[1]])) else s, Ok(value)))
      else (s, Ok(value))
    case SettingsPath => (s.(setup := s.setup.(settingsPath := value)), Ok(value))
    case Port =>
      (match StoI(value)
       case None => (s, Err(STOI_ERROR))
       case Some(n) => (s.(network := s.network.(port := n)), Ok(value)))
    case StopPort =>
      (match StoI(value)
       case None => (s, Err(STOI_ERROR))
       case Some(n) => (s.(network := s.network.(stopPort := n)), Ok(value)))
    case UdpSrcIp => (s.(network := s.network.(udpSrcIp := value)), Ok(value))
    case UdpSrcMac => (s.(network := s.network.(udpSrcMac := value)), Ok(value))
    case RxTcpPort =>
      (match StoI(value)
       case None => (s, Err(STOI_ERROR))
       case Some(n) => (s.(network := s.network.(rxTcpPort := n)), Ok(value)))
    case UdpDstPort =>
      (match StoI(value)
       case None => (s, Err(STOI_ERROR))
       case Some(n) => (s.(network := s.network.(udpDstPort := n)), Ok(value)))
    case RxHostname => (s.(network := s.network.(rxHostname := value)), Ok(value))
    case UdpDstIp => (s.(network := s.network.(udpDstIp := value)), Ok(value))
    case BadChannels => (s.(setup := s.setup.(badChannels := value)), Ok(value))
    case HighVoltage =>
      (match StoI(value)
       case None => (s, Err(STOI_ERROR))
       case Some(n) => (s.(modules := s.modules.(highVoltage := PutAt(s.modules.highVoltage, pos, n))), Ok(value)))
    case _ => (s, Ok(""))
  }

  /** `putCommand(narg, args)`: the new state and the reply, or the exception thrown. */
  function Put(s: DetectorState, args: seq<string>): (r: (DetectorState, Result<string>))
    requires s.Valid()
    ensures r.0.Valid() && r.0.shmId == s.shmId
  {
    if |args| == 0 then (s, Ok(""))
    else
      match SplitModulePrefix(args[0], -1)
      case Err(m) => (s, Err(m))
      case Ok(a) =>
        if a.pos >= s.Size() then (s, Ok(""))
        else PutParameter(s, KeywordOf(a.parameter), a.pos, CommandValue(args), args[1..])
  }

  /** An exception leaves the state as it was; a word putCommand does not act on is answered
      with "" and changes nothing; any other reply is the value. */
  lemma PutParameterReply(s: DetectorState, k: Keyword, pos: int, value: string, rest: seq<string>)
    requires s.Valid() && pos < s.Size()
    ensures var r := PutParameter(s, k, pos, value, rest);
      && (r.1.Err? ==> r.0 == s)
      && (!PutAccepts(k) ==> r == (s, Ok("")))
      && (PutAccepts(k) && r.1.Ok? ==> r.1.value == value)
  {
  }

  /** What putCommand answers: nothing for no arguments, for a module that does not exist
      and for a word it does not act on, each with the state unchanged; otherwise, unless it
      throws, the arguments after the first joined by single spaces and right-trimmed.  An
      exception leaves the state as it was. */
  lemma PutReply(s: DetectorState, args: seq<string>)
    requires s.Valid()
    ensures |args| == 0 ==> Put(s, args) == (s, Ok(""))
    ensures Put(s, args).1.Err? ==> Put(s, args).0 == s
    ensures |args| > 0 && SplitModulePrefix(args[0], -1).Ok? ==>
      var a := SplitModulePrefix(args[0], -1).value;
      && (a.pos >= s.Size() ==> Put(s, args) == (s, Ok("")))
      && (a.pos < s.Size() && !PutAccepts(KeywordOf(a.parameter)) ==> Put(s, args) == (s, Ok("")))
      && (a.pos < s.Size() && PutAccepts(KeywordOf(a.parameter)) && Put(s, args).1.Ok? ==>
            Put(s, args).1.value == TrimRight(Join(args[1..], " ")))
  {
    if |args| > 0 {
      CommandValueIsJoin(args);
      match SplitModulePrefix(args[0], -1)
      case Err(_) =>
      case Ok(a) =>
        if a.pos < s.Size() {
          PutParameterReply(s, KeywordOf(a.parameter), a.pos, CommandValue(args), args[1..]);
        }
    }
  }

  /** Positions 0 and -1 act alike: both write every module. */
  lemma PutParameterZeroIsAll(s: DetectorState, k: Keyword, value: string, rest: seq<string>)
    requires s.Valid() && s.Size() >= 1
    ensures PutParameter(s, k, 0, value, rest) == PutParameter(s, k, -1, value, rest)
  {
  }

  /** An explicit "0:" prefix is a broadcast: once there is at least one module it does
      exactly what the command without a prefix does, for every parameter. */
  lemma ZeroPrefixBroadcasts(s: DetectorState, parameter: string, rest: seq<string>)
    requires s.Valid() && s.Size() >= 1
    requires FindFirst(parameter, ':').None?
    ensures Put(s, ["0:" + parameter] + rest) == Put(s, [parameter] + rest)
  {
    var prefixed := ["0:" + parameter] + rest;
    var plain := [parameter] + rest;
    assert IntToString(0) == "0";
    assert "0" + ":" == "0:";
    assert prefixed == [IntToString(0) + ":" + parameter] + rest;
    PutAddressed(s, 0, parameter, rest);
    PutPlain(s, parameter, rest);
    assert prefixed[1..] == rest == plain[1..];
    PutParameterZeroIsAll(s, KeywordOf(parameter), CommandValue(plain), rest);
  }

  /** A command without a module prefix is handled by that parameter for every module. */
  lemma PutPlain(s: DetectorState, parameter: string, rest: seq<string>)
    requires s.Valid() && FindFirst(parameter, ':').None?
    ensures var args := [parameter] + rest;
      Put(s, args) == PutParameter(s, KeywordOf(parameter), -1, CommandValue(args), rest)
  {
    assert ([parameter] + rest)[1..] == rest;
  }

  /** A command addressed to module k (0 <= k < size()) is handled by that parameter for
      that position, with the arguments after the parameter word. */
  lemma PutAddressed(s: DetectorState, k: int, parameter: string, rest: seq<string>)
    requires s.Valid() && 0 <= k < s.Size() && IsInt32(k)
    ensures var args := [IntToString(k) + ":" + parameter] + rest;
      Put(s, args) == PutParameter(s, KeywordOf(parameter), k, CommandValue(args), rest)
  {
    var args := [IntToString(k) + ":" + parameter] + rest;
    ModulePrefixRoundTrip(k, parameter, -1);
    assert args[1..] == rest;
  }

  // ----- getCommand -----

  /** A getCommand line is split at its first space into the parameter and a value. */
  function SplitAtSpace(cmdline: string): (r: (string, string))
    ensures FindFirst(cmdline, ' ').None? ==> r == (cmdline, "")
  {
    match FindFirst(cmdline, ' ')
    case None => (cmdline, "")
    case Some(k) => (cmdline[..k], cmdline[k + 1..])
  }

  /** `boost::format("%x")` of an int64: negative values print as their 64-bit two's
      complement. */
  function Hex64(n: int): string {
    NatToHex(n % 0x1_0000_0000_0000_0000)
  }

  /** The per-module entry `v[pos]`, which is undefined behaviour for a negative position. */
  function EntryAt<T>(v: seq<T>, pos: int): Result<T>
    requires pos < |v|
  {
    if pos >= 0 then Ok(v[pos]) else Err(UNDEFINED_INDEX)
  }

  function MapResult<T>(r: Result<T>, f: T -> string): Result<string> {
    match r
    case Ok(x) => Ok(f(x))
    case Err(m) => Err(m)
  }

  /** The version and temperature queries, with each getter asked for the one module
      queried.  See `VersionQueryAsWritten` for what the source does. */
  function VersionQuery(k: Keyword, pos: int): Result<string>
    requires k in {FirmwareVersion, SerialNumber, DetectorServerVersion, RxVersion, TempAdc, TempFpga}
  {
    match k
    case FirmwareVersion => Ok(Hex64(PerPosition(FIRMWARE_VERSION, [pos])[0]))
    case SerialNumber => Ok(Hex64(SerialNumbers([pos])[0]))
    case DetectorServerVersion => Ok(Hex64(PerPosition(DETECTOR_SERVER_VERSION, [pos])[0]))
    case RxVersion => Ok(Hex64(OneOrPerPosition(RECEIVER_VERSION, [pos])[0]))
    case TempAdc | TempFpga => Ok(IntToString(PerPosition(SIMULATED_TEMPERATURE, [pos])[0]))
    case _ => Err(UNDEFINED_INDEX)
  }

  /** The same queries as written: the getters are called with the default, empty, position
      list and the result is indexed at the queried module. */
  function VersionQueryAsWritten(k: Keyword, pos: int): Result<string>
    requires k in {FirmwareVersion, SerialNumber, DetectorServerVersion, RxVersion, TempAdc, TempFpga}
  {
    var values: seq<int> :=
      match k
      case FirmwareVersion => PerPosition(FIRMWARE_VERSION, [])
      case SerialNumber => SerialNumbers([])
      case DetectorServerVersion => PerPosition(DETECTOR_SERVER_VERSION, [])
      case RxVersion => OneOrPerPosition(RECEIVER_VERSION, [])
      case _ => PerPosition(SIMULATED_TEMPERATURE, []);
    if !(0 <= pos < |values|) then Err(UNDEFINED_INDEX)
    else if k in {TempAdc, TempFpga} then Ok(IntToString(values[pos]))
    else Ok(Hex64(values[pos]))
  }

  /** As written, every version, serial-number and temperature query indexes an empty
      vector, and "rx_version" a one-element one. */
  lemma VersionQueryAsWrittenIndexesEmpty(k: Keyword, pos: int)
    requires k in {FirmwareVersion, SerialNumber, DetectorServerVersion, TempAdc, TempFpga}
    ensures VersionQueryAsWritten(k, pos) == Err(UNDEFINED_INDEX)
    ensures VersionQueryAsWritten(RxVersion, pos).Ok? <==> pos == 0
  {
  }

  lemma HexOfNat(n: nat)
    requires n < 0x1_0000_0000_0000_0000
    ensures AllHexDigits(Hex64(n)) && HexDigitsValue(Hex64(n)) == n
  {
  }

  /** Asking each getter for the queried module answers the firmware and detector server
      versions in hexadecimal, reading back as the version numbers. */
  lemma VersionQueryAnswersVersions(pos: int)
    ensures var f := VersionQuery(FirmwareVersion, pos);
      f.Ok? && AllHexDigits(f.value) && HexDigitsValue(f.value) == FIRMWARE_VERSION
    ensures var d := VersionQuery(DetectorServerVersion, pos);
      d.Ok? && AllHexDigits(d.value) && HexDigitsValue(d.value) == DETECTOR_SERVER_VERSION
  {
    HexOfNat(FIRMWARE_VERSION);
    HexOfNat(DETECTOR_SERVER_VERSION);
  }

  /** The serial number of module pos is answered in hexadecimal and reads back as
      0xFFF20000 + pos. */
  lemma VersionQueryAnswersSerial(pos: int)
    requires IsInt32(pos) && pos >= 0
    ensures var n := VersionQuery(SerialNumber, pos);
      n.Ok? && AllHexDigits(n.value) && HexDigitsValue(n.value) == SERIAL_NUMBER_BASE + pos
  {
    HexOfNat(SERIAL_NUMBER_BASE + pos);
  }

  /** The receiver version is answered in hexadecimal, and for module 0 the code as written
      agrees. */
  lemma VersionQueryAnswersReceiver(pos: int)
    ensures var v := VersionQuery(RxVersion, pos);
      v.Ok? && AllHexDigits(v.value) && HexDigitsValue(v.value) == RECEIVER_VERSION
    ensures VersionQuery(RxVersion, 0) == VersionQueryAsWritten(RxVersion, 0)
  {
    HexOfNat(RECEIVER_VERSION);
  }

  /** Both temperatures answer the simulated 40 degrees for every module. */
  lemma VersionQueryAnswersTemperature(pos: int)
    ensures VersionQuery(TempAdc, pos) == VersionQuery(TempFpga, pos) == Ok(IntToString(SIMULATED_TEMPERATURE))
  {
  }

  /** The timing modes of the detector type, each name followed by a space. */
  function TimingListText(t: DetectorType): string {
    var modes := TimingModeList(t);
    Terminated(seq(|modes|, i requires 0 <= i < |modes| => TimingName(modes[i])), " ")
  }

  /** What getCommand answers for one module; None for a word it skips. */
  function Query(s: DetectorState, k: Keyword, pos: int, args: seq<string>): Option<Result<string>>
    requires s.Valid() && pos < s.Size()
  {
    match k
    case Config | Parameters => Some(Ok(""))
    case Settings => Some(MapResult(EntryAt(s.modules.settings, pos), SettingsName))
    case Timing => Some(Ok(TimingName(s.acquisition.timing)))
    case TimingList => Some(Ok(TimingListText(s.setup.detectorType)))
    case FPath => Some(EntryAt(s.modules.filePath, pos))
    case FName => Some(EntryAt(s.modules.fileName, pos))
    case FIndex => Some(MapResult(EntryAt(s.modules.fileIndex, pos), IntToString))
    case FWrite => Some(Ok(if s.setup.writeToFile then "1" else "0"))
    case ExpTime | Period | Delay => Some(Err(FLOAT_REPLY))
    case Gates => Some(Ok(IntToString(s.acquisition.gates)))
    case Frames => Some(Ok(IntToString(s.acquisition.frames)))
    case Triggers => Some(Ok(IntToString(s.acquisition.triggers)))
    case LastClient | RxLastClient => Some(Ok("localhost"))
    case ClientVersion => Some(Ok(PACKAGE_VERSION))
    case FirmwareVersion | SerialNumber | DetectorServerVersion | RxVersion | TempAdc | TempFpga =>
      Some(VersionQuery(k, pos))
    case Status => Some(Ok(RunStatusName(s.acquisition.status)))
    case Type => Some(Ok(TypeName(s.setup.detectorType)))
    case Hostname => Some(Ok(Terminated(s.hostname, "+")))
    case ExtSig =>
      if |args| >= 2 then
        (match StoI(args[1])
         case None => Some(Err(STOI_ERROR))
         case Some(n) => Some(Ok(if 0 <= n <= 3 then s.setup.extsig[n] else "")))
      else Some(Ok(""))
    case SettingsPath => Some(Ok(s.setup.settingsPath))
    case Port => Some(Ok(IntToString(s.network.port)))
    case StopPort => Some(Ok(IntToString(s.network.stopPort)))
    case UdpSrcIp => Some(Ok(s.network.udpSrcIp))
    case UdpSrcMac => Some(Ok(s.network.udpSrcMac))
    case RxTcpPort => Some(Ok(IntToString(s.network.rxTcpPort)))
    case UdpDstPort => Some(Ok(IntToString(s.network.udpDstPort)))
    case RxHostname => Some(Ok(s.network.rxHostname))
    case UdpDstIp => Some(Ok(s.network.udpDstIp))
    case BadChannels => Some(Ok(s.setup.badChannels))
    case HighVoltage => Some(MapResult(EntryAt(s.modules.highVoltage, pos), IntToString))
    case Acquire | Unknown => None
  }

  /** getCommand from line i on: "acquire" starts a measurement and goes on with the next
      line, an unknown parameter is skipped, anything else answers. */
  function GetFrom(s: DetectorState, args: seq<string>, i: nat): (r: (DetectorState, Result<string>))
    requires s.Valid()
    ensures r.0.Valid() && r.0.shmId == s.shmId
    decreases |args| - i
  {
    if i >= |args| then (s, Ok(""))
    else
      var parameterAndValue := SplitAtSpace(args[i]);
      match SplitModulePrefix(parameterAndValue.0, 0)
      case Err(m) => (s, Err(m))
      case Ok(a) =>
        if a.pos >= s.Size() then (s, Ok(""))
        else if KeywordOf(a.parameter) == Acquire then GetFrom(StartMeasurement(s), args, i + 1)
        else match Query(s, KeywordOf(a.parameter), a.pos, args)
          case None => GetFrom(s, args, i + 1)
          case Some(reply) => (s, reply)
  }

  /** `getCommand(narg, args)`. */
  function Get(s: DetectorState, args: seq<string>): (r: (DetectorState, Result<string>))
    requires s.Valid()
    ensures r.0.Valid() && r.0.shmId == s.shmId
  {
    GetFrom(s, args, 0)
  }

  /** getCommand changes nothing but, through "acquire", the measurement counter and the run
      status. */
  lemma {:induction false} GetOnlyAcquires(s: DetectorState, args: seq<string>, i: nat)
    requires s.Valid()
    ensures var r := GetFrom(s, args, i).0;
      r.(acquisition := r.acquisition.(neededFrames := s.acquisition.neededFrames, status := s.acquisition.status)) == s
    decreases |args| - i
  {
    if i < |args| {
      var parameterAndValue := SplitAtSpace(args[i]);
      match SplitModulePrefix(parameterAndValue.0, 0)
      case Err(m) =>
      case Ok(a) =>
        if a.pos < s.Size() {
          var k := KeywordOf(a.parameter);
          if k == Acquire {
            GetOnlyAcquires(StartMeasurement(s), args, i + 1);
          } else if Query(s, k, a.pos, args).None? {
            GetOnlyAcquires(s, args, i + 1);
          }
        }
    }
  }

  /** Without a module prefix the position is 0, so with no module configured getCommand
      answers "" to its first line, whatever it asks. */
  lemma GetWithoutModules(s: DetectorState, args: seq<string>)
    requires s.Valid() && s.Size() == 0
    requires args != [] ==> FindFirst(SplitAtSpace(args[0]).0, ':').None?
    ensures Get(s, args) == (s, Ok(""))
  {
  }

  // ----- reading back what was written -----

  /** A getCommand line "k:parameter" (0 <= k < size()) is answered by the query of that
      parameter for module k. */
  lemma GetAddressed(s: DetectorState, k: int, parameter: string)
    requires s.Valid() && 0 <= k < s.Size() && IsInt32(k) && NoneOf(parameter, IsSpace)
    requires KeywordOf(parameter) != Acquire
    requires Query(s, KeywordOf(parameter), k, [IntToString(k) + ":" + parameter]).Some?
    ensures var line := IntToString(k) + ":" + parameter;
      Get(s, [line]) == (s, Query(s, KeywordOf(parameter), k, [line]).value)
  {
    var line := IntToString(k) + ":" + parameter;
    NoSpaceInPrefixed(k, parameter);
    assert SplitAtSpace(line) == (line, "");
    ModulePrefixRoundTrip(k, parameter, 0);
  }

  /** A getCommand line naming a parameter without a module prefix is answered by the query
      of that parameter for module 0. */
  lemma GetPlain(s: DetectorState, parameter: string)
    requires s.Valid() && s.Size() >= 1 && NoneOf(parameter, IsSpace)
    requires FindFirst(parameter, ':').None? && KeywordOf(parameter) != Acquire
    requires Query(s, KeywordOf(parameter), 0, [parameter]).Some?
    ensures Get(s, [parameter]) == (s, Query(s, KeywordOf(parameter), 0, [parameter]).value)
  {
    assert SplitAtSpace(parameter) == (parameter, "");
  }

  // ----- parameter classes -----

  /** The parameters whose value is kept as text and answered as it was written. */
  predicate TextParameter(k: Keyword) {
    k in {FPath, FName, SettingsPath, UdpSrcIp, UdpSrcMac, RxHostname, UdpDstIp, BadChannels}
  }

  /** The parameters read with `std::stoi` (`std::stoll` for "findex") and answered with
      `std::to_string`. */
  predicate NumberParameter(k: Keyword) {
    k in {Port, StopPort, RxTcpPort, UdpDstPort, HighVoltage, FIndex}
  }

  /** The frame, trigger and gate counts, where a negative value is ignored. */
  predicate CountParameter(k: Keyword) {
    k in {Frames, Triggers, Gates}
  }

  /** The parameters kept per module, where a position > 0 writes that module only. */
  predicate PerModule(k: Keyword) {
    k in {Settings, FPath, FName, FIndex, HighVoltage}
  }

  /** How putCommand reads the value of a number parameter. */
  function ParseNumber(k: Keyword, value: string): Option<int> {
    if k == FIndex then StoLL(value) else StoI(value)
  }

  /** A position `q` that a write at `pos` reached: every module for a global parameter,
      otherwise module `pos`, or every module for pos <= 0. */
  predicate Reached(k: Keyword, pos: int, q: int) {
    !PerModule(k) || pos <= 0 || q == pos
  }

  // ----- reading back what was written, one parameter -----

  /** A text parameter is answered exactly as it was written. */
  lemma PutThenQueryText(s: DetectorState, k: Keyword, pos: int, value: string, rest: seq<string>,
                         q: int, args: seq<string>)
    requires s.Valid() && pos < s.Size() && 0 <= q < s.Size()
    requires TextParameter(k) && Reached(k, pos, q)
    ensures PutParameter(s, k, pos, value, rest).1 == Ok(value)
    ensures PutParameter(s, k, pos, value, rest).0.hostname == s.hostname
    ensures Query(PutParameter(s, k, pos, value, rest).0, k, q, args) == Some(Ok(value))
  {
  }

  /** A number parameter is answered with the number that was read, printed in decimal; a
      value that does not read as a number throws and changes nothing. */
  lemma PutThenQueryNumber(s: DetectorState, k: Keyword, pos: int, value: string, rest: seq<string>,
                           q: int, args: seq<string>)
    requires s.Valid() && pos < s.Size() && 0 <= q < s.Size()
    requires NumberParameter(k) && Reached(k, pos, q)
    ensures ParseNumber(k, value).None? ==>
              PutParameter(s, k, pos, value, rest) == (s, Err(if k == FIndex then STOLL_ERROR else STOI_ERROR))
    ensures ParseNumber(k, value).Some? ==>
              PutParameter(s, k, pos, value, rest).1 == Ok(value)
              && PutParameter(s, k, pos, value, rest).0.hostname == s.hostname
              && Query(PutParameter(s, k, pos, value, rest).0, k, q, args)
                 == Some(Ok(IntToString(ParseNumber(k, value).value)))
  {
  }

  /** A count is answered with the number written when that is not negative; a negative
      count leaves the state as it was. */
  lemma PutThenQueryCount(s: DetectorState, k: Keyword, pos: int, value: string, rest: seq<string>,
                          q: int, args: seq<string>)
    requires s.Valid() && pos < s.Size() && 0 <= q < s.Size() && CountParameter(k)
    ensures StoLL(value).None? ==> PutParameter(s, k, pos, value, rest) == (s, Err(STOLL_ERROR))
    ensures StoLL(value).Some? && StoLL(value).value < 0 ==>
              PutParameter(s, k, pos, value, rest) == (s, Ok(value))
    ensures StoLL(value).Some? && StoLL(value).value >= 0 ==>
              Query(PutParameter(s, k, pos, value, rest).0, k, q, args)
              == Some(Ok(IntToString(StoLL(value).value)))
  {
  }

  /** "fwrite" is answered "1" after any non-zero number and "0" after zero. */
  lemma PutThenQueryWrite(s: DetectorState, pos: int, value: string, rest: seq<string>,
                          q: int, args: seq<string>)
    requires s.Valid() && pos < s.Size() && 0 <= q < s.Size()
    ensures StoI(value).None? ==> PutParameter(s, FWrite, pos, value, rest) == (s, Err(STOI_ERROR))
    ensures StoI(value).Some? ==>
              Query(PutParameter(s, FWrite, pos, value, rest).0, FWrite, q, args)
              == Some(Ok(if StoI(value).value != 0 then "1" else "0"))
  {
  }

  /** A settings name is answered as written; a name that is not in the table is stored as
      STANDARD and answered "standard". */
  lemma PutThenQuerySettings(s: DetectorState, pos: int, value: string, rest: seq<string>,
                             q: int, args: seq<string>)
    requires s.Valid() && pos < s.Size() && 0 <= q < s.Size() && Reached(Settings, pos, q)
    ensures var r := Query(PutParameter(s, Settings, pos, value, rest).0, Settings, q, args);
      r == Some(Ok(value)) || (SettingsFromName(value) == Standard && r == Some(Ok("standard")))
    ensures forall x: DetectorSettings ::
      Query(PutParameter(s, Settings, pos, SettingsName(x), rest).0, Settings, q, args)
      == Some(Ok(SettingsName(x)))
  {
    SettingsLookupDefault(value);
    forall x: DetectorSettings
      ensures Query(PutParameter(s, Settings, pos, SettingsName(x), rest).0, Settings, q, args)
              == Some(Ok(SettingsName(x)))
    {
      SettingsNames(x);
    }
  }

  /** A timing mode name is answered as written; any other name is stored as AUTO_TIMING. */
  lemma PutThenQueryTiming(s: DetectorState, pos: int, value: string, rest: seq<string>,
                           q: int, args: seq<string>)
    requires s.Valid() && pos < s.Size() && 0 <= q < s.Size()
    ensures var r := Query(PutParameter(s, Timing, pos, value, rest).0, Timing, q, args);
      r == Some(Ok(value)) || (TimingFromName(value) == AutoTiming && r == Some(Ok("auto")))
  {
    TimingNames(AutoTiming, value);
  }

  /** "extsig <n> <signal>" with 0 <= n <= 3 stores the signal as external signal n and
      changes nothing else; any other n changes nothing. */
  lemma PutExtSig(s: DetectorState, pos: int, value: string, index: string, signal: string,
                  more: seq<string>, n: int)
    requires s.Valid() && pos < s.Size() && StoI(index) == Some(n)
    ensures PutParameter(s, ExtSig, pos, value, [index, signal] + more).0
            == if 0 <= n <= 3 then s.(setup := s.setup.(extsig := s.setup.extsig[n := signal])) else s
  {
    assert ([index, signal] + more)[0] == index && ([index, signal] + more)[1] == signal;
  }

  /** getCommand "extsig" answers the external signal numbered by its second line, or ""
      for a number outside 0..3. */
  lemma QueryExtSig(s: DetectorState, q: int, line: string, index: string, n: int)
    requires s.Valid() && 0 <= q < s.Size() && StoI(index) == Some(n)
    ensures Query(s, ExtSig, q, [line, index]) == Some(Ok(if 0 <= n <= 3 then s.setup.extsig[n] else ""))
  {
  }

  /** An external signal written with "extsig <n> <signal>" is read back by "extsig" with n
      on the second line. */
  lemma PutThenQueryExtSig(s: DetectorState, pos: int, value: string, index: string, signal: string,
                           q: int, line: string, n: int)
    requires s.Valid() && pos < s.Size() && 0 <= q < s.Size()
    requires StoI(index) == Some(n) && 0 <= n <= 3
    ensures Query(PutParameter(s, ExtSig, pos, value, [index, signal]).0, ExtSig, q, [line, index])
            == Some(Ok(signal))
  {
    PutExtSig(s, pos, value, index, signal, [], n);
    assert [index, signal] + [] == [index, signal];
    QueryExtSig(PutParameter(s, ExtSig, pos, value, [index, signal]).0, q, line, index, n);
  }

  /** Host names that survive the '+' splitting of "hostname": non-empty and '+'-free. */
  predicate HostNames(hosts: seq<string>) {
    forall i | 0 <= i < |hosts| :: hosts[i] != [] && NoneOf(hosts[i], IsPlus)
  }

  /** "hostname" configures one module per host of the '+'-separated list. */
  lemma PutHostname(s: DetectorState, pos: int, value: string, rest: seq<string>)
    requires s.Valid() && pos < s.Size()
    ensures PutParameter(s, Hostname, pos, value, rest) == (WithHosts(s, HostList(value)), Ok(value))
  {
  }

  /** getCommand "hostname" answers every host followed by '+'. */
  lemma QueryHostname(s: DetectorState, q: int, args: seq<string>)
    requires s.Valid() && 0 <= q < s.Size()
    ensures Query(s, Hostname, q, args) == Some(Ok(Terminated(s.hostname, "+")))
  {
  }

  /** Host names joined with '+' are configured one module each and answered each followed
      by '+'. */
  lemma PutThenQueryHostname(s: DetectorState, pos: int, hosts: seq<string>, rest: seq<string>,
                             q: int, args: seq<string>)
    requires s.Valid() && pos < s.Size() && 0 <= q < |hosts| && HostNames(hosts)
    ensures var t := PutParameter(s, Hostname, pos, Join(hosts, "+"), rest).0;
      t.hostname == hosts && Query(t, Hostname, q, args) == Some(Ok(Terminated(hosts, "+")))
  {
    var value := Join(hosts, "+");
    PutHostname(s, pos, value, rest);
    HostListOfJoin(hosts);
    QueryHostname(WithHosts(s, hosts), q, args);
  }

  lemma HostListOfJoin(hosts: seq<string>)
    requires hosts != [] && HostNames(hosts)
    ensures HostList(Join(hosts, "+")) == hosts
  {
    JoinKeepsTrim(hosts);
    SplitJoin(hosts, '+', IsPlus);
  }

  /** The host list as getCommand "hostname" and the setup dump print it, every host followed
      by '+', configures the same hosts again. */
  lemma HostListOfTerminated(hosts: seq<string>)
    requires hosts != [] && HostNames(hosts)
    ensures HostList(Terminated(hosts, "+")) == hosts
  {
    var j := Join(hosts, "+");
    TerminatedIsJoinPlusSuffix(hosts, "+");
    JoinEnds(hosts, '+');
    assert DropLeft(j + "+", IsPlus) == j + "+";
    assert (j + "+")[..|j + "+"| - 1] == j;
    assert DropRight(j + "+", IsPlus) == DropRight(j, IsPlus);
    JoinKeepsTrim(hosts);
    SplitJoin(hosts, '+', IsPlus);
  }

  /** Trimming '+' leaves a join of non-empty '+'-free host names as it is. */
  lemma JoinKeepsTrim(hosts: seq<string>)
    requires hosts != [] && HostNames(hosts)
    ensures TrimIf(Join(hosts, "+"), IsPlus) == Join(hosts, "+")
  {
    var j := Join(hosts, "+");
    var first := hosts[0];
    var last := hosts[|hosts| - 1];
    JoinEnds(hosts, '+');
    assert !IsPlus(first[0]) && !IsPlus(last[|last| - 1]);
    TrimIfKeepsClean(j, IsPlus);
  }

  /** A join of non-empty parts starts with the first part and ends with the last. */
  lemma {:induction false} JoinEnds(parts: seq<string>, c: char)
    requires parts != [] && forall i | 0 <= i < |parts| :: parts[i] != []
    ensures var j := Join(parts, [c]);
      j != [] && j[0] == parts[0][0] && j[|j| - 1] == parts[|parts| - 1][|parts[|parts| - 1]| - 1]
  {
    if |parts| > 1 {
      JoinEnds(parts[1..], c);
    }
  }

  /** A per-module write at position pos > 0 leaves every other module, and everything
      outside the module vectors, as it was. */
  lemma PerModuleWriteAt(s: DetectorState, k: Keyword, pos: int, value: string, rest: seq<string>, i: int)
    requires s.Valid() && 0 < pos < s.Size() && 0 <= i < s.Size() && i != pos && PerModule(k)
    ensures var t := PutParameter(s, k, pos, value, rest).0;
      t.(modules := s.modules) == s
      && t.modules.settings[i] == s.modules.settings[i] && t.modules.filePath[i] == s.modules.filePath[i]
      && t.modules.fileName[i] == s.modules.fileName[i] && t.modules.fileIndex[i] == s.modules.fileIndex[i]
      && t.modules.highVoltage[i] == s.modules.highVoltage[i]
  {
  }

  // ----- reading back what was written, whole commands -----

  /** A parameter word getCommand and putCommand take as it is: no white space and no
      module prefix. */
  predicate PlainWord(word: string) {
    NoneOf(word, IsSpace) && FindFirst(word, ':').None?
  }

  /** A value that trimming leaves as it is. */
  predicate NoTrailingSpace(v: string) {
    v == [] || !IsSpace(v[|v| - 1])
  }

  /** putCommand with one value and no prefix is that parameter with that value for every
      module. */
  lemma PutSingleValue(s: DetectorState, word: string, v: string)
    requires s.Valid() && FindFirst(word, ':').None? && NoTrailingSpace(v)
    ensures Put(s, [word, v]) == PutParameter(s, KeywordOf(word), -1, v, [v])
  {
    PutPlain(s, word, [v]);
    assert [word] + [v] == [word, v];
    CommandValueSingle(word, v);
  }

  /** putCommand with one value and a "k:" prefix is that parameter with that value for
      module k. */
  lemma PutSingleValueAddressed(s: DetectorState, k: int, word: string, v: string)
    requires s.Valid() && 0 <= k < s.Size() && IsInt32(k) && NoTrailingSpace(v)
    ensures Put(s, [IntToString(k) + ":" + word, v]) == PutParameter(s, KeywordOf(word), k, v, [v])
  {
    var line := IntToString(k) + ":" + word;
    PutAddressed(s, k, word, [v]);
    assert [line] + [v] == [line, v];
    CommandValueSingle(line, v);
  }

  /** A text parameter set with putCommand is what getCommand then answers. */
  lemma PutThenGetText(s: DetectorState, word: string, v: string)
    requires s.Valid() && s.Size() >= 1 && PlainWord(word) && TextParameter(KeywordOf(word))
    requires NoTrailingSpace(v)
    ensures Put(s, [word, v]).1 == Ok(v)
    ensures Get(Put(s, [word, v]).0, [word]).1 == Ok(v)
  {
    PutSingleValue(s, word, v);
    PutThenQueryText(s, KeywordOf(word), -1, v, [v], 0, [word]);
    GetPlain(Put(s, [word, v]).0, word);
  }

  /** A number parameter set with putCommand is answered with the number read from it. */
  lemma PutThenGetNumber(s: DetectorState, word: string, v: string)
    requires s.Valid() && s.Size() >= 1 && PlainWord(word) && NumberParameter(KeywordOf(word))
    requires NoTrailingSpace(v) && ParseNumber(KeywordOf(word), v).Some?
    ensures Put(s, [word, v]).1 == Ok(v)
    ensures Get(Put(s, [word, v]).0, [word]).1 == Ok(IntToString(ParseNumber(KeywordOf(word), v).value))
  {
    PutSingleValue(s, word, v);
    PutThenQueryNumber(s, KeywordOf(word), -1, v, [v], 0, [word]);
    GetPlain(Put(s, [word, v]).0, word);
  }

  /** A per-module text parameter written to module k (0 < k < size()) through a "k:"
      prefix is what getCommand then answers for module k. */
  lemma PutThenGetAddressed(s: DetectorState, k: int, word: string, v: string)
    requires s.Valid() && 0 < k < s.Size() && IsInt32(k)
    requires NoneOf(word, IsSpace) && TextParameter(KeywordOf(word)) && PerModule(KeywordOf(word))
    requires NoTrailingSpace(v)
    ensures var line := IntToString(k) + ":" + word;
      Put(s, [line, v]).1 == Ok(v) && Get(Put(s, [line, v]).0, [line]).1 == Ok(v)
  {
    var line := IntToString(k) + ":" + word;
    PutSingleValueAddressed(s, k, word, v);
    PutThenQueryText(s, KeywordOf(word), k, v, [v], k, [line]);
    GetAddressed(Put(s, [line, v]).0, k, word);
  }

  lemma NoSpaceInPrefixed(k: int, parameter: string)
    requires NoneOf(parameter, IsSpace)
    ensures FindFirst(IntToString(k) + ":" + parameter, ' ').None?
  {
    IntToStringChars(k);
    var w := IntToString(k) + ":" + parameter;
    forall i | 0 <= i < |w|
      ensures w[i] != ' '
    {
      if i >= |IntToString(k)| + 1 {
        assert w[i] == parameter[i - |IntToString(k)| - 1];
      }
    }
  }
}
