/** The command language of the legacy simulated detector: `putCommand` and `getCommand`
    of `slsDetectorUsers` as pure functions over `UsersState`, with the properties of the
    controller prefix, of the reply, and of reading back what was written. */
module UsersCommands {
  import opened Wrappers
  import opened Text
  import opened UsersTables
  import opened UsersModel
  import Commands = DetectorCommands
  import DetectorModel

  /** The parameter words of the legacy command language. */
  datatype Keyword =
    | Config | Parameters | Settings | Threshold | Timing | OutDir | FName | Index
    | EnableFWrite | ExpTime | Period | Delay | Gates | Frames | Cycles | Probes | Measurements
    | Dr | Flags | Lock | LastClient | FlatField | RateCorr | FineOff | Positions
    | ModuleVersion | ModuleNumber | DetectorVersion | DetectorNumber | SoftwareVersion
    | ThisVersion | Acquire | Status | Online | CheckOnline | Type | Hostname | ExtSig0
    | ExtSig1 | ExtSig2 | ExtSig3 | Master | Sync | SettingsDir | CalDir | Port | StopPort | Id
    | DetectorIp | DetectorMac | RxTcpPort | RxUdpPort | RxHostname | RxUdpIp | ROnline
    | RCheckOnline | RLock | RLastClient | FfDir | DarkImage | GainImage | BadChannels
    | Threaded | GlobalOff | AngConv | BinSize | AngDir | MoveFlag | VHighVoltage | TempAdc
    | TempFpga | Unknown


  function KeywordName(k: Keyword): string {
    match k
    case Config => "config"
    case Parameters => "parameters"
    case Settings => "settings"
    case Threshold => "threshold"
    case Timing => "timing"
    case OutDir => "outdir"
    case FName => "fname"
    case Index => "index"
    case EnableFWrite => "enablefwrite"
    case ExpTime => "exptime"
    case Period => "period"
    case Delay => "delay"
    case Gates => "gates"
    case Frames => "frames"
    case Cycles => "cycles"
    case Probes => "probes"
    case Measurements => "measurements"
    case Dr => "dr"
    case Flags => "flags"
    case Lock => "lock"
    case LastClient => "lastclient"
    case FlatField => "flatfield"
    case RateCorr => "ratecorr"
    case FineOff => "fineoff"
    case Positions => "positions"
    case ModuleVersion => "moduleversion"
    case ModuleNumber => "modulenumber"
    case DetectorVersion => "detectorversion"
    case DetectorNumber => "detectornumber"
    case SoftwareVersion => "softwareversion"
    case ThisVersion => "thisversion"
    case Acquire => "acquire"
    case Status => "status"
    case Online => "online"
    case CheckOnline => "checkonline"
    case Type => "type"
    case Hostname => "hostname"
    case ExtSig0 => "extsig:0"
    case ExtSig1 => "extsig:1"
    case ExtSig2 => "extsig:2"
    case ExtSig3 => "extsig:3"
    case Master => "master"
    case Sync => "sync"
    case SettingsDir => "settingsdir"
    case CalDir => "caldir"
    case Port => "port"
    case StopPort => "stopport"
    case Id => "id"
    case DetectorIp => "detectorip"
    case DetectorMac => "detectormac"
    case RxTcpPort => "rx_tcpport"
    case RxUdpPort => "rx_udpport"
    case RxHostname => "rx_hostname"
    case RxUdpIp => "rx_udpip"
    case ROnline => "r_online"
    case RCheckOnline => "r_checkonline"
    case RLock => "r_lock"
    case RLastClient => "r_lastclient"
    case FfDir => "ffdir"
    case DarkImage => "darkimage"
    case GainImage => "gainimage"
    case BadChannels => "badchannels"
    case Threaded => "threaded"
    case GlobalOff => "globaloff"
    case AngConv => "angconv"
    case BinSize => "binsize"
    case AngDir => "angdir"
    case MoveFlag => "moveflag"
    case VHighVoltage => "vhighvoltage"
    case TempAdc => "temp_adc"
    case TempFpga => "temp_fpga"
    case Unknown => ""
  }


  /** The only keyword a word can spell given its first letter and its length (and, where
      several keywords share both, one more letter). */
  function Candidate(word: string): Keyword {
    if word == [] then Unknown
    else if word[0] == 'a' then
      if |word| == 6 then AngDir
      else if |word| == 7 then
        if word[1] == 'c' then Acquire
        else if word[1] == 'n' then AngConv
        else Unknown
      else Unknown
    else if word[0] == 'b' then
      if |word| == 7 then BinSize
      else if |word| == 11 then BadChannels
      else Unknown
    else if word[0] == 'c' then
      if |word| == 6 then
        if word[1] == 'a' then CalDir
        else if word[1] == 'o' then Config
        else if word[1] == 'y' then Cycles
        else Unknown
      else if |word| == 11 then CheckOnline
      else Unknown
    else if word[0] == 'd' then
      if |word| == 2 then Dr
      else if |word| == 5 then Delay
      else if |word| == 9 then DarkImage
      else if |word| == 10 then DetectorIp
      else if |word| == 11 then DetectorMac
      else if |word| == 14 then DetectorNumber
      else if |word| == 15 then DetectorVersion
      else Unknown
    else if word[0] == 'e' then
      if |word| == 7 then ExpTime
      else if |word| == 8 then
        if word[7] == '0' then ExtSig0
        else if word[7] == '1' then ExtSig1
        else if word[7] == '2' then ExtSig2
        else if word[7] == '3' then ExtSig3
        else Unknown
      else if |word| == 12 then EnableFWrite
      else Unknown
    else if word[0] == 'f' then
      if |word| == 5 then
        if word[1] == 'f' then FfDir
        else if word[1] == 'l' then Flags
        else if word[1] == 'n' then FName
        else Unknown
      else if |word| == 6 then Frames
      else if |word| == 7 then FineOff
      else if |word| == 9 then FlatField
      else Unknown
    else if word[0] == 'g' then
      if |word| == 5 then Gates
      else if |word| == 9 then
        if word[1] == 'a' then GainImage
        else if word[1] == 'l' then GlobalOff
        else Unknown
      else Unknown
    else if word[0] == 'h' then Hostname
    else if word[0] == 'i' then
      if |word| == 2 then Id
      else if |word| == 5 then Index
      else Unknown
    else if word[0] == 'l' then
      if |word| == 4 then Lock
      else if |word| == 10 then LastClient
      else Unknown
    else if word[0] == 'm' then
      if |word| == 6 then Master
      else if |word| == 8 then MoveFlag
      else if |word| == 12 then
        if word[1] == 'e' then Measurements
        else if word[1] == 'o' then ModuleNumber
        else Unknown
      else if |word| == 13 then ModuleVersion
      else Unknown
    else if word[0] == 'o' then
      if |word| == 6 then
        if word[1] == 'n' then Online
        else if word[1] == 'u' then OutDir
        else Unknown
      else Unknown
    else if word[0] == 'p' then
      if |word| == 4 then Port
      else if |word| == 6 then
        if word[1] == 'e' then Period
        else if word[1] == 'r' then Probes
        else Unknown
      else if |word| == 9 then Positions
      else if |word| == 10 then Parameters
      else Unknown
    else if word[0] == 'r' then
      if |word| == 6 then RLock
      else if |word| == 8 then
        if word[1] == '_' then ROnline
        else if word[1] == 'a' then RateCorr
        else if word[1] == 'x' then RxUdpIp
        else Unknown
      else if |word| == 10 then
        if word[3] == 't' then RxTcpPort
        else if word[3] == 'u' then RxUdpPort
        else Unknown
      else if |word| == 11 then RxHostname
      else if |word| == 12 then RLastClient
      else if |word| == 13 then RCheckOnline
      else Unknown
    else if word[0] == 's' then
      if |word| == 4 then Sync
      else if |word| == 6 then Status
      else if |word| == 8 then
        if word[1] == 'e' then Settings
        else if word[1] == 't' then StopPort
        else Unknown
      else if |word| == 11 then SettingsDir
      else if |word| == 15 then SoftwareVersion
      else Unknown
    else if word[0] == 't' then
      if |word| == 4 then Type
      else if |word| == 6 then Timing
      else if |word| == 8 then
        if word[1] == 'e' then TempAdc
        else if word[1] == 'h' then Threaded
        else Unknown
      else if |word| == 9 then
        if word[1] == 'e' then TempFpga
        else if word[1] == 'h' then Threshold
        else Unknown
      else if |word| == 11 then ThisVersion
      else Unknown
    else if word[0] == 'v' then VHighVoltage
    else Unknown
  }


  /** The keyword a parameter word spells, `Unknown` for any other word.  `KeywordNames` and
      `KeywordOfSpells` show this is the map of the chain of comparisons in putCommand and
      getCommand. */
  function KeywordOf(word: string): Keyword {
    var k := Candidate(word);
    if KeywordName(k) == word then k else Unknown
  }

  /** A word is read as a keyword only if it spells that keyword. */
  lemma KeywordOfSpells(word: string)
    ensures KeywordOf(word) == Unknown || KeywordName(KeywordOf(word)) == word
  {
  }

  /** Spelling a keyword and reading it back gives the keyword. */
  lemma KeywordNames(k: Keyword)
    requires k != Unknown
    ensures KeywordOf(KeywordName(k)) == k
  {
    match k
    case Config => SpellsConfig();
    case Parameters => SpellsParameters();
    case Settings => SpellsSettings();
    case Threshold => SpellsThreshold();
    case Timing => SpellsTiming();
    case OutDir => SpellsOutDir();
    case FName => SpellsFName();
    case Index => SpellsIndex();
    case EnableFWrite => SpellsEnableFWrite();
    case ExpTime => SpellsExpTime();
    case Period => SpellsPeriod();
    case Delay => SpellsDelay();
    case Gates => SpellsGates();
    case Frames => SpellsFrames();
    case Cycles => SpellsCycles();
    case Probes => SpellsProbes();
    case Measurements => SpellsMeasurements();
    case Dr => SpellsDr();
    case Flags => SpellsFlags();
    case Lock => SpellsLock();
    case LastClient => SpellsLastClient();
    case FlatField => SpellsFlatField();
    case RateCorr => SpellsRateCorr();
    case FineOff => SpellsFineOff();
    case Positions => SpellsPositions();
    case ModuleVersion => SpellsModuleVersion();
    case ModuleNumber => SpellsModuleNumber();
    case DetectorVersion => SpellsDetectorVersion();
    case DetectorNumber => SpellsDetectorNumber();
    case SoftwareVersion => SpellsSoftwareVersion();
    case ThisVersion => SpellsThisVersion();
    case Acquire => SpellsAcquire();
    case Status => SpellsStatus();
    case Online => SpellsOnline();
    case CheckOnline => SpellsCheckOnline();
    case Type => SpellsType();
    case Hostname => SpellsHostname();
    case ExtSig0 => SpellsExtSig0();
    case ExtSig1 => SpellsExtSig1();
    case ExtSig2 => SpellsExtSig2();
    case ExtSig3 => SpellsExtSig3();
    case Master => SpellsMaster();
    case Sync => SpellsSync();
    case SettingsDir => SpellsSettingsDir();
    case CalDir => SpellsCalDir();
    case Port => SpellsPort();
    case StopPort => SpellsStopPort();
    case Id => SpellsId();
    case DetectorIp => SpellsDetectorIp();
    case DetectorMac => SpellsDetectorMac();
    case RxTcpPort => SpellsRxTcpPort();
    case RxUdpPort => SpellsRxUdpPort();
    case RxHostname => SpellsRxHostname();
    case RxUdpIp => SpellsRxUdpIp();
    case ROnline => SpellsROnline();
    case RCheckOnline => SpellsRCheckOnline();
    case RLock => SpellsRLock();
    case RLastClient => SpellsRLastClient();
    case FfDir => SpellsFfDir();
    case DarkImage => SpellsDarkImage();
    case GainImage => SpellsGainImage();
    case BadChannels => SpellsBadChannels();
    case Threaded => SpellsThreaded();
    case GlobalOff => SpellsGlobalOff();
    case AngConv => SpellsAngConv();
    case BinSize => SpellsBinSize();
    case AngDir => SpellsAngDir();
    case MoveFlag => SpellsMoveFlag();
    case VHighVoltage => SpellsVHighVoltage();
    case TempAdc => SpellsTempAdc();
    case TempFpga => SpellsTempFpga();
  }

  // One lemma per keyword, so that each spelling is checked on its own.
  lemma SpellsConfig()
    ensures KeywordOf("config") == Config
  {
    var w := "config";
    assert |w| == 6 && w[0] == 'c' && w[1] == 'o' && w[2] == 'n';
    assert Candidate(w) == Config;
  }
  lemma SpellsParameters()
    ensures KeywordOf("parameters") == Parameters
  {
    var w := "parameters";
    assert |w| == 10 && w[0] == 'p' && w[1] == 'a' && w[2] == 'r';
    assert Candidate(w) == Parameters;
  }
  lemma SpellsSettings()
    ensures KeywordOf("settings") == Settings
  {
    var w := "settings";
    assert |w| == 8 && w[0] == 's' && w[1] == 'e' && w[2] == 't';
    assert Candidate(w) == Settings;
  }
  lemma SpellsThreshold()
    ensures KeywordOf("threshold") == Threshold
  {
    var w := "threshold";
    assert |w| == 9 && w[0] == 't' && w[1] == 'h' && w[2] == 'r';
    assert Candidate(w) == Threshold;
  }
  lemma SpellsTiming()
    ensures KeywordOf("timing") == Timing
  {
    var w := "timing";
    assert |w| == 6 && w[0] == 't' && w[1] == 'i' && w[2] == 'm';
    assert Candidate(w) == Timing;
  }
  lemma SpellsOutDir()
    ensures KeywordOf("outdir") == OutDir
  {
    var w := "outdir";
    assert |w| == 6 && w[0] == 'o' && w[1] == 'u' && w[2] == 't';
    assert Candidate(w) == OutDir;
  }
  lemma SpellsFName()
    ensures KeywordOf("fname") == FName
  {
    var w := "fname";
    assert |w| == 5 && w[0] == 'f' && w[1] == 'n' && w[2] == 'a';
    assert Candidate(w) == FName;
  }
  lemma SpellsIndex()
    ensures KeywordOf("index") == Index
  {
    var w := "index";
    assert |w| == 5 && w[0] == 'i' && w[1] == 'n' && w[2] == 'd';
    assert Candidate(w) == Index;
  }
  lemma SpellsEnableFWrite()
    ensures KeywordOf("enablefwrite") == EnableFWrite
  {
    var w := "enablefwrite";
    assert |w| == 12 && w[0] == 'e' && w[1] == 'n' && w[2] == 'a';
    assert Candidate(w) == EnableFWrite;
  }
  lemma SpellsExpTime()
    ensures KeywordOf("exptime") == ExpTime
  {
    var w := "exptime";
    assert |w| == 7 && w[0] == 'e' && w[1] == 'x' && w[2] == 'p';
    assert Candidate(w) == ExpTime;
  }
  lemma SpellsPeriod()
    ensures KeywordOf("period") == Period
  {
    var w := "period";
    assert |w| == 6 && w[0] == 'p' && w[1] == 'e' && w[2] == 'r';
    assert Candidate(w) == Period;
  }
  lemma SpellsDelay()
    ensures KeywordOf("delay") == Delay
  {
    var w := "delay";
    assert |w| == 5 && w[0] == 'd' && w[1] == 'e' && w[2] == 'l';
    assert Candidate(w) == Delay;
  }
  lemma SpellsGates()
    ensures KeywordOf("gates") == Gates
  {
    var w := "gates";
    assert |w| == 5 && w[0] == 'g' && w[1] == 'a' && w[2] == 't';
    assert Candidate(w) == Gates;
  }
  lemma SpellsFrames()
    ensures KeywordOf("frames") == Frames
  {
    var w := "frames";
    assert |w| == 6 && w[0] == 'f' && w[1] == 'r' && w[2] == 'a';
    assert Candidate(w) == Frames;
  }
  lemma SpellsCycles()
    ensures KeywordOf("cycles") == Cycles
  {
    var w := "cycles";
    assert |w| == 6 && w[0] == 'c' && w[1] == 'y' && w[2] == 'c';
    assert Candidate(w) == Cycles;
  }
  lemma SpellsProbes()
    ensures KeywordOf("probes") == Probes
  {
    var w := "probes";
    assert |w| == 6 && w[0] == 'p' && w[1] == 'r' && w[2] == 'o';
    assert Candidate(w) == Probes;
  }
  lemma SpellsMeasurements()
    ensures KeywordOf("measurements") == Measurements
  {
    var w := "measurements";
    assert |w| == 12 && w[0] == 'm' && w[1] == 'e' && w[2] == 'a';
    assert Candidate(w) == Measurements;
  }
  lemma SpellsDr()
    ensures KeywordOf("dr") == Dr
  {
    var w := "dr";
    assert |w| == 2 && w[0] == 'd' && w[1] == 'r';
    assert Candidate(w) == Dr;
  }
  lemma SpellsFlags()
    ensures KeywordOf("flags") == Flags
  {
    var w := "flags";
    assert |w| == 5 && w[0] == 'f' && w[1] == 'l' && w[2] == 'a';
    assert Candidate(w) == Flags;
  }
  lemma SpellsLock()
    ensures KeywordOf("lock") == Lock
  {
    var w := "lock";
    assert |w| == 4 && w[0] == 'l' && w[1] == 'o' && w[2] == 'c';
    assert Candidate(w) == Lock;
  }
  lemma SpellsLastClient()
    ensures KeywordOf("lastclient") == LastClient
  {
    var w := "lastclient";
    assert |w| == 10 && w[0] == 'l' && w[1] == 'a' && w[2] == 's';
    assert Candidate(w) == LastClient;
  }
  lemma SpellsFlatField()
    ensures KeywordOf("flatfield") == FlatField
  {
    var w := "flatfield";
    assert |w| == 9 && w[0] == 'f' && w[1] == 'l' && w[2] == 'a';
    assert Candidate(w) == FlatField;
  }
  lemma SpellsRateCorr()
    ensures KeywordOf("ratecorr") == RateCorr
  {
    var w := "ratecorr";
    assert |w| == 8 && w[0] == 'r' && w[1] == 'a' && w[2] == 't';
    assert Candidate(w) == RateCorr;
  }
  lemma SpellsFineOff()
    ensures KeywordOf("fineoff") == FineOff
  {
    var w := "fineoff";
    assert |w| == 7 && w[0] == 'f' && w[1] == 'i' && w[2] == 'n';
    assert Candidate(w) == FineOff;
  }
  lemma SpellsPositions()
    ensures KeywordOf("positions") == Positions
  {
    var w := "positions";
    assert |w| == 9 && w[0] == 'p' && w[1] == 'o' && w[2] == 's';
    assert Candidate(w) == Positions;
  }
  lemma SpellsModuleVersion()
    ensures KeywordOf("moduleversion") == ModuleVersion
  {
    var w := "moduleversion";
    assert |w| == 13 && w[0] == 'm' && w[1] == 'o' && w[2] == 'd';
    assert Candidate(w) == ModuleVersion;
  }
  lemma SpellsModuleNumber()
    ensures KeywordOf("modulenumber") == ModuleNumber
  {
    var w := "modulenumber";
    assert |w| == 12 && w[0] == 'm' && w[1] == 'o' && w[2] == 'd';
    assert Candidate(w) == ModuleNumber;
  }
  lemma SpellsDetectorVersion()
    ensures KeywordOf("detectorversion") == DetectorVersion
  {
    var w := "detectorversion";
    assert |w| == 15 && w[0] == 'd' && w[1] == 'e' && w[2] == 't';
    assert Candidate(w) == DetectorVersion;
  }
  lemma SpellsDetectorNumber()
    ensures KeywordOf("detectornumber") == DetectorNumber
  {
    var w := "detectornumber";
    assert |w| == 14 && w[0] == 'd' && w[1] == 'e' && w[2] == 't';
    assert Candidate(w) == DetectorNumber;
  }
  lemma SpellsSoftwareVersion()
    ensures KeywordOf("softwareversion") == SoftwareVersion
  {
    var w := "softwareversion";
    assert |w| == 15 && w[0] == 's' && w[1] == 'o' && w[2] == 'f';
    assert Candidate(w) == SoftwareVersion;
  }
  lemma SpellsThisVersion()
    ensures KeywordOf("thisversion") == ThisVersion
  {
    var w := "thisversion";
    assert |w| == 11 && w[0] == 't' && w[1] == 'h' && w[2] == 'i';
    assert Candidate(w) == ThisVersion;
  }
  lemma SpellsAcquire()
    ensures KeywordOf("acquire") == Acquire
  {
    var w := "acquire";
    assert |w| == 7 && w[0] == 'a' && w[1] == 'c' && w[2] == 'q';
    assert Candidate(w) == Acquire;
  }
  lemma SpellsStatus()
    ensures KeywordOf("status") == Status
  {
    var w := "status";
    assert |w| == 6 && w[0] == 's' && w[1] == 't' && w[2] == 'a';
    assert Candidate(w) == Status;
  }
  lemma SpellsOnline()
    ensures KeywordOf("online") == Online
  {
    var w := "online";
    assert |w| == 6 && w[0] == 'o' && w[1] == 'n' && w[2] == 'l';
    assert Candidate(w) == Online;
  }
  lemma SpellsCheckOnline()
    ensures KeywordOf("checkonline") == CheckOnline
  {
    var w := "checkonline";
    assert |w| == 11 && w[0] == 'c' && w[1] == 'h' && w[2] == 'e';
    assert Candidate(w) == CheckOnline;
  }
  lemma SpellsType()
    ensures KeywordOf("type") == Type
  {
    var w := "type";
    assert |w| == 4 && w[0] == 't' && w[1] == 'y' && w[2] == 'p';
    assert Candidate(w) == Type;
  }
  lemma SpellsHostname()
    ensures KeywordOf("hostname") == Hostname
  {
    var w := "hostname";
    assert |w| == 8 && w[0] == 'h' && w[1] == 'o' && w[2] == 's';
    assert Candidate(w) == Hostname;
  }
  lemma SpellsExtSig0()
    ensures KeywordOf("extsig:0") == ExtSig0
  {
    var w := "extsig:0";
    assert |w| == 8 && w[0] == 'e' && w[1] == 'x' && w[2] == 't';
    assert Candidate(w) == ExtSig0;
  }
  lemma SpellsExtSig1()
    ensures KeywordOf("extsig:1") == ExtSig1
  {
    var w := "extsig:1";
    assert |w| == 8 && w[0] == 'e' && w[1] == 'x' && w[2] == 't';
    assert Candidate(w) == ExtSig1;
  }
  lemma SpellsExtSig2()
    ensures KeywordOf("extsig:2") == ExtSig2
  {
    var w := "extsig:2";
    assert |w| == 8 && w[0] == 'e' && w[1] == 'x' && w[2] == 't';
    assert Candidate(w) == ExtSig2;
  }
  lemma SpellsExtSig3()
    ensures KeywordOf("extsig:3") == ExtSig3
  {
    var w := "extsig:3";
    assert |w| == 8 && w[0] == 'e' && w[1] == 'x' && w[2] == 't';
    assert Candidate(w) == ExtSig3;
  }
  lemma SpellsMaster()
    ensures KeywordOf("master") == Master
  {
    var w := "master";
    assert |w| == 6 && w[0] == 'm' && w[1] == 'a' && w[2] == 's';
    assert Candidate(w) == Master;
  }
  lemma SpellsSync()
    ensures KeywordOf("sync") == Sync
  {
    var w := "sync";
    assert |w| == 4 && w[0] == 's' && w[1] == 'y' && w[2] == 'n';
    assert Candidate(w) == Sync;
  }
  lemma SpellsSettingsDir()
    ensures KeywordOf("settingsdir") == SettingsDir
  {
    var w := "settingsdir";
    assert |w| == 11 && w[0] == 's' && w[1] == 'e' && w[2] == 't';
    assert Candidate(w) == SettingsDir;
  }
  lemma SpellsCalDir()
    ensures KeywordOf("caldir") == CalDir
  {
    var w := "caldir";
    assert |w| == 6 && w[0] == 'c' && w[1] == 'a' && w[2] == 'l';
    assert Candidate(w) == CalDir;
  }
  lemma SpellsPort()
    ensures KeywordOf("port") == Port
  {
    var w := "port";
    assert |w| == 4 && w[0] == 'p' && w[1] == 'o' && w[2] == 'r';
    assert Candidate(w) == Port;
  }
  lemma SpellsStopPort()
    ensures KeywordOf("stopport") == StopPort
  {
    var w := "stopport";
    assert |w| == 8 && w[0] == 's' && w[1] == 't' && w[2] == 'o';
    assert Candidate(w) == StopPort;
  }
  lemma SpellsId()
    ensures KeywordOf("id") == Id
  {
    var w := "id";
    assert |w| == 2 && w[0] == 'i' && w[1] == 'd';
    assert Candidate(w) == Id;
  }
  lemma SpellsDetectorIp()
    ensures KeywordOf("detectorip") == DetectorIp
  {
    var w := "detectorip";
    assert |w| == 10 && w[0] == 'd' && w[1] == 'e' && w[2] == 't';
    assert Candidate(w) == DetectorIp;
  }
  lemma SpellsDetectorMac()
    ensures KeywordOf("detectormac") == DetectorMac
  {
    var w := "detectormac";
    assert |w| == 11 && w[0] == 'd' && w[1] == 'e' && w[2] == 't';
    assert Candidate(w) == DetectorMac;
  }
  lemma SpellsRxTcpPort()
    ensures KeywordOf("rx_tcpport") == RxTcpPort
  {
    var w := "rx_tcpport";
    assert |w| == 10 && w[0] == 'r' && w[1] == 'x' && w[2] == '_';
    assert Candidate(w) == RxTcpPort;
  }
  lemma SpellsRxUdpPort()
    ensures KeywordOf("rx_udpport") == RxUdpPort
  {
    var w := "rx_udpport";
    assert |w| == 10 && w[0] == 'r' && w[1] == 'x' && w[2] == '_';
    assert Candidate(w) == RxUdpPort;
  }
  lemma SpellsRxHostname()
    ensures KeywordOf("rx_hostname") == RxHostname
  {
    var w := "rx_hostname";
    assert |w| == 11 && w[0] == 'r' && w[1] == 'x' && w[2] == '_';
    assert Candidate(w) == RxHostname;
  }
  lemma SpellsRxUdpIp()
    ensures KeywordOf("rx_udpip") == RxUdpIp
  {
    var w := "rx_udpip";
    assert |w| == 8 && w[0] == 'r' && w[1] == 'x' && w[2] == '_';
    assert Candidate(w) == RxUdpIp;
  }
  lemma SpellsROnline()
    ensures KeywordOf("r_online") == ROnline
  {
    var w := "r_online";
    assert |w| == 8 && w[0] == 'r' && w[1] == '_' && w[2] == 'o';
    assert Candidate(w) == ROnline;
  }
  lemma SpellsRCheckOnline()
    ensures KeywordOf("r_checkonline") == RCheckOnline
  {
    var w := "r_checkonline";
    assert |w| == 13 && w[0] == 'r' && w[1] == '_' && w[2] == 'c';
    assert Candidate(w) == RCheckOnline;
  }
  lemma SpellsRLock()
    ensures KeywordOf("r_lock") == RLock
  {
    var w := "r_lock";
    assert |w| == 6 && w[0] == 'r' && w[1] == '_' && w[2] == 'l';
    assert Candidate(w) == RLock;
  }
  lemma SpellsRLastClient()
    ensures KeywordOf("r_lastclient") == RLastClient
  {
    var w := "r_lastclient";
    assert |w| == 12 && w[0] == 'r' && w[1] == '_' && w[2] == 'l';
    assert Candidate(w) == RLastClient;
  }
  lemma SpellsFfDir()
    ensures KeywordOf("ffdir") == FfDir
  {
    var w := "ffdir";
    assert |w| == 5 && w[0] == 'f' && w[1] == 'f' && w[2] == 'd';
    assert Candidate(w) == FfDir;
  }
  lemma SpellsDarkImage()
    ensures KeywordOf("darkimage") == DarkImage
  {
    var w := "darkimage";
    assert |w| == 9 && w[0] == 'd' && w[1] == 'a' && w[2] == 'r';
    assert Candidate(w) == DarkImage;
  }
  lemma SpellsGainImage()
    ensures KeywordOf("gainimage") == GainImage
  {
    var w := "gainimage";
    assert |w| == 9 && w[0] == 'g' && w[1] == 'a' && w[2] == 'i';
    assert Candidate(w) == GainImage;
  }
  lemma SpellsBadChannels()
    ensures KeywordOf("badchannels") == BadChannels
  {
    var w := "badchannels";
    assert |w| == 11 && w[0] == 'b' && w[1] == 'a' && w[2] == 'd';
    assert Candidate(w) == BadChannels;
  }
  lemma SpellsThreaded()
    ensures KeywordOf("threaded") == Threaded
  {
    var w := "threaded";
    assert |w| == 8 && w[0] == 't' && w[1] == 'h' && w[2] == 'r';
    assert Candidate(w) == Threaded;
  }
  lemma SpellsGlobalOff()
    ensures KeywordOf("globaloff") == GlobalOff
  {
    var w := "globaloff";
    assert |w| == 9 && w[0] == 'g' && w[1] == 'l' && w[2] == 'o';
    assert Candidate(w) == GlobalOff;
  }
  lemma SpellsAngConv()
    ensures KeywordOf("angconv") == AngConv
  {
    var w := "angconv";
    assert |w| == 7 && w[0] == 'a' && w[1] == 'n' && w[2] == 'g';
    assert Candidate(w) == AngConv;
  }
  lemma SpellsBinSize()
    ensures KeywordOf("binsize") == BinSize
  {
    var w := "binsize";
    assert |w| == 7 && w[0] == 'b' && w[1] == 'i' && w[2] == 'n';
    assert Candidate(w) == BinSize;
  }
  lemma SpellsAngDir()
    ensures KeywordOf("angdir") == AngDir
  {
    var w := "angdir";
    assert |w| == 6 && w[0] == 'a' && w[1] == 'n' && w[2] == 'g';
    assert Candidate(w) == AngDir;
  }
  lemma SpellsMoveFlag()
    ensures KeywordOf("moveflag") == MoveFlag
  {
    var w := "moveflag";
    assert |w| == 8 && w[0] == 'm' && w[1] == 'o' && w[2] == 'v';
    assert Candidate(w) == MoveFlag;
  }
  lemma SpellsVHighVoltage()
    ensures KeywordOf("vhighvoltage") == VHighVoltage
  {
    var w := "vhighvoltage";
    assert |w| == 12 && w[0] == 'v' && w[1] == 'h' && w[2] == 'i';
    assert Candidate(w) == VHighVoltage;
  }
  lemma SpellsTempAdc()
    ensures KeywordOf("temp_adc") == TempAdc
  {
    var w := "temp_adc";
    assert |w| == 8 && w[0] == 't' && w[1] == 'e' && w[2] == 'm';
    assert Candidate(w) == TempAdc;
  }
  lemma SpellsTempFpga()
    ensures KeywordOf("temp_fpga") == TempFpga
  {
    var w := "temp_fpga";
    assert |w| == 9 && w[0] == 't' && w[1] == 'e' && w[2] == 'm';
    assert Candidate(w) == TempFpga;
  }

  // ----- parameter classes -----

  /** The parameters whose value is kept as text and answered as it was written. */
  predicate TextParameter(k: Keyword) {
    match k
    case OutDir | FName | Flags | FlatField | Hostname | ExtSig0 | ExtSig1 | ExtSig2 | ExtSig3
      | Sync | SettingsDir | CalDir | DetectorIp | DetectorMac | RxHostname | RxUdpIp | FfDir
      | DarkImage | GainImage | BadChannels | AngConv => true
    case _ => false
  }

  /** The parameters read with `std::stoi`, kept as they are and answered with
      `std::to_string`. */
  predicate NumberParameter(k: Keyword) {
    match k
    case Threshold | Index | Probes | Measurements | Lock | Master | Port | StopPort | RxTcpPort
      | RxUdpPort | ROnline | RLock | Threaded | MoveFlag | VHighVoltage => true
    case _ => false
  }

  /** The parameters whose setter ignores a negative value: "dr" read with `std::stoi`, the
      gate, frame and cycle counts with `std::stoll`. */
  predicate CountParameter(k: Keyword) {
    match k
    case Dr | Gates | Frames | Cycles => true
    case _ => false
  }

  /** The parameters set through a tri-state setter. */
  predicate FlagParameter(k: Keyword) {
    match k
    case EnableFWrite | Online => true
    case _ => false
  }

  /** The parameters whose value is a floating-point number, and "type", which putCommand
      ignores. */
  predicate UnmodelledParameter(k: Keyword) {
    match k
    case ExpTime | Period | Delay | RateCorr | FineOff | Positions | GlobalOff | BinSize
      | AngDir | Type => true
    case _ => false
  }

  /** The text a text parameter holds. */
  function TextOf(s: UsersState, k: Keyword): string
    requires s.Valid() && TextParameter(k)
  {
    match k
    case OutDir => s.files.filePath
    case FName => s.files.fileName
    case Flags => s.setup.flags
    case FlatField => s.files.flatFieldFile
    case Hostname => s.setup.hostname
    case ExtSig0 => s.setup.extsig[0]
    case ExtSig1 => s.setup.extsig[1]
    case ExtSig2 => s.setup.extsig[2]
    case ExtSig3 => s.setup.extsig[3]
    case Sync => s.setup.sync
    case SettingsDir => s.setup.settingsDir
    case CalDir => s.setup.calDir
    case DetectorIp => s.network.detectorIp
    case DetectorMac => s.network.detectorMac
    case RxHostname => s.network.rxHostname
    case RxUdpIp => s.network.rxUdpIp
    case FfDir => s.files.flatFieldDir
    case DarkImage => s.images.darkImage
    case GainImage => s.images.gainImage
    case BadChannels => s.images.badChannels
    case AngConv => s.images.angConv
  }

  /** The state with the text of a text parameter replaced. */
  function WithText(s: UsersState, k: Keyword, value: string): (r: UsersState)
    requires s.Valid() && TextParameter(k)
    ensures r.Valid() && TextOf(r, k) == value
  {
    match k
    case OutDir => s.(files := s.files.(filePath := value))
    case FName => s.(files := s.files.(fileName := value))
    case Flags => s.(setup := s.setup.(flags := value))
    case FlatField => s.(files := s.files.(flatFieldFile := value))
    case Hostname => s.(setup := s.setup.(hostname := value))
    case ExtSig0 => s.(setup := s.setup.(extsig := s.setup.extsig[0 := value]))
    case ExtSig1 => s.(setup := s.setup.(extsig := s.setup.extsig[1 := value]))
    case ExtSig2 => s.(setup := s.setup.(extsig := s.setup.extsig[2 := value]))
    case ExtSig3 => s.(setup := s.setup.(extsig := s.setup.extsig[3 := value]))
    case Sync => s.(setup := s.setup.(sync := value))
    case SettingsDir => s.(setup := s.setup.(settingsDir := value))
    case CalDir => s.(setup := s.setup.(calDir := value))
    case DetectorIp => s.(network := s.network.(detectorIp := value))
    case DetectorMac => s.(network := s.network.(detectorMac := value))
    case RxHostname => s.(network := s.network.(rxHostname := value))
    case RxUdpIp => s.(network := s.network.(rxUdpIp := value))
    case FfDir => s.(files := s.files.(flatFieldDir := value))
    case DarkImage => s.(images := s.images.(darkImage := value))
    case GainImage => s.(images := s.images.(gainImage := value))
    case BadChannels => s.(images := s.images.(badChannels := value))
    case AngConv => s.(images := s.images.(angConv := value))
  }

  /** The number a number parameter holds. */
  function NumberOf(s: UsersState, k: Keyword): int
    requires NumberParameter(k)
  {
    match k
    case Threshold => s.readout.threshold
    case Index => s.files.fileIndex
    case Probes => s.readout.probes
    case Measurements => s.readout.measurements
    case Lock => s.setup.lock
    case Master => s.setup.master
    case Port => s.network.port
    case StopPort => s.network.stopPort
    case RxTcpPort => s.network.rxTcpPort
    case RxUdpPort => s.network.rxUdpPort
    case ROnline => s.network.rxOnline
    case RLock => s.network.rxLock
    case Threaded => s.setup.threaded
    case MoveFlag => s.setup.moveFlag
    case VHighVoltage => s.setup.highVoltage
  }

  /** The state with the number of a number parameter replaced. */
  function WithNumber(s: UsersState, k: Keyword, n: int): (r: UsersState)
    requires s.Valid() && NumberParameter(k)
    ensures r.Valid() && NumberOf(r, k) == n
  {
    match k
    case Threshold => s.(readout := s.readout.(threshold := n))
    case Index => s.(files := s.files.(fileIndex := n))
    case Probes => s.(readout := s.readout.(probes := n))
    case Measurements => s.(readout := s.readout.(measurements := n))
    case Lock => s.(setup := s.setup.(lock := n))
    case Master => s.(setup := s.setup.(master := n))
    case Port => s.(network := s.network.(port := n))
    case StopPort => s.(network := s.network.(stopPort := n))
    case RxTcpPort => s.(network := s.network.(rxTcpPort := n))
    case RxUdpPort => s.(network := s.network.(rxUdpPort := n))
    case ROnline => s.(network := s.network.(rxOnline := n))
    case RLock => s.(network := s.network.(rxLock := n))
    case Threaded => s.(setup := s.setup.(threaded := n))
    case MoveFlag => s.(setup := s.setup.(moveFlag := n))
    case VHighVoltage => s.(setup := s.setup.(highVoltage := n))
  }

  /** The count a count parameter holds. */
  function CountOf(s: UsersState, k: Keyword): int
    requires CountParameter(k)
  {
    match k
    case Dr => s.readout.bitDepth
    case Gates => s.acquisition.gates
    case Frames => s.acquisition.frames
    case Cycles => s.acquisition.cycles
  }

  /** The state after the setter of a count parameter was given n. */
  function WithCount(s: UsersState, k: Keyword, n: int): (r: UsersState)
    requires s.Valid() && CountParameter(k)
    ensures r.Valid() && CountOf(r, k) == Sentinel(CountOf(s, k), n)
  {
    match k
    case Dr => s.(readout := s.readout.(bitDepth := Sentinel(s.readout.bitDepth, n)))
    case Gates => s.(acquisition := s.acquisition.(gates := Sentinel(s.acquisition.gates, n)))
    case Frames => s.(acquisition := s.acquisition.(frames := Sentinel(s.acquisition.frames, n)))
    case Cycles => s.(acquisition := s.acquisition.(cycles := Sentinel(s.acquisition.cycles, n)))
  }

  /** How putCommand reads the value of a count: `std::stoi` for "dr", `std::stoll` otherwise. */
  function ParseCount(k: Keyword, value: string): Option<int> {
    if k == Dr then StoI(value) else StoLL(value)
  }

  /** The flag a flag parameter holds. */
  function FlagOf(s: UsersState, k: Keyword): bool
    requires FlagParameter(k)
  {
    if k == Online then s.online else s.files.writeToFile
  }

  /** The state after the tri-state setter of a flag parameter was given i. */
  function WithFlag(s: UsersState, k: Keyword, i: int): (r: UsersState)
    requires s.Valid() && FlagParameter(k)
    ensures r.Valid() && FlagOf(r, k) == TriState(FlagOf(s, k), i)
  {
    if k == Online then s.(online := TriState(s.online, i))
    else s.(files := s.files.(writeToFile := TriState(s.files.writeToFile, i)))
  }

  /** "flatfield", "badchannels" and "angconv" with the value "" or "none" first switch off
      the flat-field, pixel-mask or angular correction. */
  function DisableIfNone(s: UsersState, k: Keyword, value: string): (r: UsersState)
    requires s.Valid()
    ensures r.Valid()
  {
    if value != "" && value != "none" then s
    else if k == FlatField then s.(corrections := s.corrections.(flatField := false))
    else if k == BadChannels then s.(corrections := s.corrections.(pixelMask := false))
    else if k == AngConv then s.(corrections := s.corrections.(angular := false))
    else s
  }

  /** The correction a "flatfield", "badchannels" or "angconv" value can switch off. */
  function CorrectionOf(c: Corrections, k: Keyword): bool
    requires k in {FlatField, BadChannels, AngConv}
  {
    if k == FlatField then c.flatField else if k == BadChannels then c.pixelMask else c.angular
  }

  /** The keywords putCommand acts on; it answers any other word with "". */
  predicate PutAccepts(k: Keyword) {
    TextParameter(k) || NumberParameter(k) || CountParameter(k) || FlagParameter(k)
    || UnmodelledParameter(k) || k.Config? || k.Parameters? || k.Settings? || k.Timing? || k.Status?
  }

  // ----- putCommand -----

  /** One parameter of putCommand for this controller, with its value. */
  function PutParameter(s: UsersState, k: Keyword, value: string): (r: (UsersState, Result<string>))
    requires s.Valid()
    ensures r.0.Valid()
    ensures r.1.Err? ==> r.0 == s
    ensures !PutAccepts(k) ==> r == (s, Ok(""))
    ensures PutAccepts(k) && r.1.Ok? ==> r.1.value == value
  {
    if TextParameter(k) then (WithText(DisableIfNone(s, k, value), k, value), Ok(value))
    else if NumberParameter(k) then
      match StoI(value)
      case None => (s, Err(DetectorModel.STOI_ERROR))
      case Some(n) => (WithNumber(s, k, n), Ok(value))
    else if CountParameter(k) then
      match ParseCount(k, value)
      case None => (s, Err(if k == Dr then DetectorModel.STOI_ERROR else DetectorModel.STOLL_ERROR))
      case Some(n) => (WithCount(s, k, n), Ok(value))
    else if FlagParameter(k) then
      match StoI(value)
      case None => (s, Err(DetectorModel.STOI_ERROR))
      case Some(n) => (WithFlag(s, k, n), Ok(value))
    else if UnmodelledParameter(k) then (s, Ok(value))
    // the configuration and parameter files themselves are not read
    else if k.Config? then (s.(files := s.files.(configFile := value)), Ok(value))
    else if k.Parameters? then (s.(files := s.files.(parametersFile := value)), Ok(value))
    else if k.Settings? then (s.(readout := s.readout.(settings := SettingsIndex(value))), Ok(value))
    else if k.Timing? then (s.(acquisition := s.acquisition.(timing := TimingModeIndex(value))), Ok(value))
    else if k.Status? then
      (if value == "start" then StartMeasurement(s) else if value == "stop" then StopMeasurement(s) else s,
       Ok(value))
    else (s, Ok(""))
  }

  /** putCommand's controller prefix: the parameter word without its "id:" prefix, or None
      when the text before the first ':' is not this controller's id. */
  function PutAddressee(word: string): (r: Option<string>)
    ensures Commands.FindFirst(word, ':').None? ==> r == Some(word)
  {
    match Commands.FindFirst(word, ':')
    case None => Some(word)
    case Some(k) => if word[..k] == IntToString(CONTROLLER_ID) then Some(word[k + 1..]) else None
  }

  /** `putCommand(narg, args)`: the new state and the reply, or the exception thrown. */
  function Put(s: UsersState, args: seq<string>): (r: (UsersState, Result<string>))
    requires s.Valid()
    ensures r.0.Valid()
  {
    if |args| == 0 then (s, Ok(""))
    else
      match PutAddressee(args[0])
      case None => (s, Ok(""))
      case Some(parameter) => PutParameter(s, KeywordOf(parameter), Commands.CommandValue(args))
  }

  /** What putCommand answers: nothing for no arguments, for a command meant for another
      controller and for a word it does not act on, each with the state unchanged;
      otherwise, unless it throws, the arguments after the first joined by single spaces and
      right-trimmed.  An exception leaves the state as it was. */
  lemma PutReply(s: UsersState, args: seq<string>)
    requires s.Valid()
    ensures |args| == 0 ==> Put(s, args) == (s, Ok(""))
    ensures Put(s, args).1.Err? ==> Put(s, args).0 == s
    ensures |args| > 0 && PutAddressee(args[0]).None? ==> Put(s, args) == (s, Ok(""))
    ensures |args| > 0 && PutAddressee(args[0]).Some? ==>
      var k := KeywordOf(PutAddressee(args[0]).value);
      && (!PutAccepts(k) ==> Put(s, args) == (s, Ok("")))
      && (PutAccepts(k) && Put(s, args).1.Ok? ==> Put(s, args).1.value == TrimRight(Join(args[1..], " ")))
  {
    if |args| > 0 {
      Commands.CommandValueIsJoin(args);
    }
  }

  /** The printed id of a controller is "0" exactly for controller 0. */
  lemma PrintedIdIsZero(k: int)
    requires IsInt32(k)
    ensures IntToString(k) == IntToString(CONTROLLER_ID) <==> k == CONTROLLER_ID
  {
    if IntToString(k) == IntToString(CONTROLLER_ID) {
      StoIRoundTrip(k);
      StoIRoundTrip(CONTROLLER_ID);
    }
  }

  /** A word "k:parameter" is for this controller exactly when k is its id. */
  lemma PutAddresseePrefixed(k: int, parameter: string)
    requires IsInt32(k)
    ensures PutAddressee(IntToString(k) + ":" + parameter)
            == if k == CONTROLLER_ID then Some(parameter) else None
  {
    var d := IntToString(k);
    var w := d + ":" + parameter;
    IntToStringChars(k);
    assert forall i | 0 <= i < |d| :: d[i] != ':';
    Commands.FindFirstAfter(d, ":" + parameter, ':');
    assert w == d + (":" + parameter);
    assert w[..|d|] == d;
    assert w[|d| + 1..] == parameter;
    PrintedIdIsZero(k);
  }

  /** A command prefixed with another controller's id is answered with "" and changes
      nothing; the prefix "0:" is the same as no prefix. */
  lemma PutForController(s: UsersState, k: int, parameter: string, rest: seq<string>)
    requires s.Valid() && IsInt32(k) && Commands.FindFirst(parameter, ':').None?
    ensures k != CONTROLLER_ID ==> Put(s, [IntToString(k) + ":" + parameter] + rest) == (s, Ok(""))
    ensures k == CONTROLLER_ID ==>
      Put(s, [IntToString(k) + ":" + parameter] + rest) == Put(s, [parameter] + rest)
  {
    PutAddresseePrefixed(k, parameter);
    assert ([IntToString(k) + ":" + parameter] + rest)[1..] == rest == ([parameter] + rest)[1..];
  }

  /** A plain parameter word with one value that trimming keeps is that parameter with that
      value. */
  lemma PutSingleValue(s: UsersState, word: string, v: string)
    requires s.Valid() && Commands.FindFirst(word, ':').None? && Commands.NoTrailingSpace(v)
    ensures Put(s, [word, v]) == PutParameter(s, KeywordOf(word), v)
  {
    Commands.CommandValueSingle(word, v);
  }

  /** "flatfield", "badchannels" and "angconv" keep the value as text; the value "" or
      "none" switches the matching correction off, and any other value leaves it as it
      was. */
  lemma PutDisablesCorrection(s: UsersState, k: Keyword, value: string)
    requires s.Valid() && k in {FlatField, BadChannels, AngConv}
    ensures var r := PutParameter(s, k, value);
      && r.1 == Ok(value) && TextOf(r.0, k) == value
      && CorrectionOf(r.0.corrections, k) == (CorrectionOf(s.corrections, k) && value != "" && value != "none")
  {
    assert TextParameter(k);
    var t := DisableIfNone(s, k, value);
    assert PutParameter(s, k, value) == (WithText(t, k, value), Ok(value));
    assert WithText(t, k, value).corrections == t.corrections;
  }

  // ----- getCommand -----

  /** What getCommand answers for one parameter; None for a word it goes past. */
  /** The version number each version parameter answers with. */
  function VersionNumber(k: Keyword): int {
    match k
    case ModuleVersion | ModuleNumber => MODULE_VERSION
    case DetectorVersion => DETECTOR_FIRMWARE_VERSION
    case DetectorNumber => DETECTOR_SERIAL_NUMBER
    case SoftwareVersion => DETECTOR_SOFTWARE_VERSION
    case ThisVersion => THIS_SOFTWARE_VERSION
    case _ => 0
  }

  predicate VersionParameter(k: Keyword) {
    match k
    case ModuleVersion | ModuleNumber | DetectorVersion | DetectorNumber | SoftwareVersion | ThisVersion => true
    case _ => false
  }

  function Query(s: UsersState, k: Keyword): Option<Result<string>>
    requires s.Valid()
  {
    if TextParameter(k) then Some(Ok(TextOf(s, k)))
    else if NumberParameter(k) then Some(Ok(IntToString(NumberOf(s, k))))
    else if CountParameter(k) then Some(Ok(IntToString(CountOf(s, k))))
    else if FlagParameter(k) then Some(Ok(IntToString(FlagReply(FlagOf(s, k)))))
    else match k
      // "config" and "parameters" write the setup to the named file and answer ""
      case Config | Parameters => Some(Ok(""))
      case Settings => Some(Ok(SettingsName(s.readout.settings)))
      case Timing => Some(Ok(TimingModeName(s.acquisition.timing)))
      case ExpTime | Period | Delay | RateCorr | FineOff | Positions | GlobalOff | BinSize | AngDir =>
        Some(Err(Commands.FLOAT_REPLY))
      case LastClient | RLastClient => Some(Ok("localhost"))
      case ModuleVersion | ModuleNumber | DetectorVersion | DetectorNumber | SoftwareVersion | ThisVersion =>
        Some(Ok(Commands.Hex64(VersionNumber(k))))
      case Status => Some(Ok(RunStatusType(s.acquisition.status)))
      case CheckOnline => Some(Ok(IntToString(FlagReply(s.online))))
      case Type => Some(Ok(TypeReply(s.detectorType)))
      case Id => Some(Ok(IntToString(CONTROLLER_ID)))
      case RCheckOnline => Some(Ok(IntToString(s.network.rxOnline)))
      case TempAdc => Some(Ok("39°C"))
      case TempFpga => Some(Ok("43°C"))
      case _ => None
  }

  /** getCommand's controller prefix: the parameter without its "id:" prefix, None when the
      line is for another controller, or the exception `std::stoi` throws on the prefix. */
  function GetAddressee(parameter: string): (r: Result<Option<string>>)
    ensures Commands.FindFirst(parameter, ':').None? ==> r == Ok(Some(parameter))
  {
    match Commands.FindFirst(parameter, ':')
    case None => Ok(Some(parameter))
    case Some(k) =>
      match StoI(parameter[..k])
      case None => Err(DetectorModel.STOI_ERROR)
      case Some(id) => if id == CONTROLLER_ID then Ok(Some(parameter[k + 1..])) else Ok(None)
  }

  /** What one getCommand line leads to: an answer, or going on with the next line in the
      state given. */
  datatype LineOutcome = Answer(reply: Result<string>) | Next(state: UsersState)

  /** One line of getCommand, once its controller prefix is read: a line for another
      controller and an unknown parameter are gone past, "acquire" starts a measurement and
      goes on, anything else answers.  Only "acquire" changes the state. */
  function Respond(s: UsersState, a: Result<Option<string>>): (r: LineOutcome)
    requires s.Valid()
    ensures r.Next? ==> r.state == s || r.state == StartMeasurement(s)
  {
    match a
    case Err(m) => Answer(Err(m))
    case Ok(None) => Next(s)
    case Ok(Some(parameter)) =>
      if KeywordOf(parameter) == Acquire then Next(StartMeasurement(s))
      else match Query(s, KeywordOf(parameter))
        case None => Next(s)
        case Some(reply) => Answer(reply)
  }

  /** One line of getCommand: its first word, read for a controller prefix. */
  function GetLine(s: UsersState, line: string): (r: LineOutcome)
    requires s.Valid()
    ensures r.Next? ==> r.state == s || r.state == StartMeasurement(s)
  {
    Respond(s, GetAddressee(Commands.SplitAtSpace(line).0))
  }

  /** getCommand from line i on: the first answer, or "" when no line answers. */
  function GetFrom(s: UsersState, args: seq<string>, i: nat): (r: (UsersState, Result<string>))
    requires s.Valid()
    ensures r.0.Valid()
    decreases |args| - i
  {
    if i >= |args| then (s, Ok(""))
    else
      match GetLine(s, args[i])
      case Answer(reply) => (s, reply)
      case Next(t) => GetFrom(t, args, i + 1)
  }

  /** `getCommand(narg, args)`. */
  function Get(s: UsersState, args: seq<string>): (r: (UsersState, Result<string>))
    requires s.Valid()
    ensures r.0.Valid()
  {
    GetFrom(s, args, 0)
  }

  /** getCommand changes nothing but, through "acquire", the frame countdown and the run
      status. */
  lemma {:induction false} GetOnlyAcquires(s: UsersState, args: seq<string>, i: nat)
    requires s.Valid()
    ensures var r := GetFrom(s, args, i).0;
      r.(acquisition := r.acquisition.(neededFrames := s.acquisition.neededFrames, status := s.acquisition.status)) == s
    decreases |args| - i
  {
    if i < |args| {
      match GetLine(s, args[i])
      case Answer(_) =>
      case Next(t) => GetOnlyAcquires(t, args, i + 1);
    }
  }

  /** getCommand from line i + 1 of `[line] + rest` is getCommand from line i of `rest`. */
  lemma {:induction false} GetFromShift(s: UsersState, line: string, rest: seq<string>, i: nat)
    requires s.Valid()
    ensures GetFrom(s, [line] + rest, i + 1) == GetFrom(s, rest, i)
    decreases |rest| - i
  {
    if i < |rest| {
      assert ([line] + rest)[i + 1] == rest[i];
      match GetLine(s, rest[i])
      case Answer(_) =>
      case Next(t) => GetFromShift(t, line, rest, i + 1);
    }
  }

  /** A line for another controller, or naming a parameter getCommand does not know, is gone
      past with the state unchanged. */
  lemma GetLineSkips(s: UsersState, a: Result<Option<string>>)
    requires s.Valid()
    requires a == Ok(None) || (a.Ok? && KeywordOf(a.value.value) == Unknown)
    ensures Respond(s, a) == Next(s)
  {
    assert Query(s, Unknown).None?;
  }

  /** getCommand answers at the first line that answers. */
  lemma GetAnswers(s: UsersState, line: string, rest: seq<string>)
    requires s.Valid() && GetLine(s, line).Answer?
    ensures Get(s, [line] + rest) == (s, GetLine(s, line).reply)
  {
    assert ([line] + rest)[0] == line;
  }

  /** getCommand from line i: the answer of line i, or the lines after it in the state line i
      leaves. */
  lemma GetFromStep(s: UsersState, args: seq<string>, i: nat)
    requires s.Valid() && i < |args|
    ensures GetLine(s, args[i]).Answer? ==> GetFrom(s, args, i) == (s, GetLine(s, args[i]).reply)
    ensures GetLine(s, args[i]).Next? ==> GetFrom(s, args, i) == GetFrom(GetLine(s, args[i]).state, args, i + 1)
  {
  }

  /** A line that goes on with the state unchanged is gone past. */
  lemma GetFromSkips(s: UsersState, args: seq<string>, i: nat)
    requires s.Valid() && i < |args| && GetLine(s, args[i]) == Next(s)
    ensures GetFrom(s, args, i) == GetFrom(s, args, i + 1)
  {
  }


  /** A getCommand line "k:parameter" for another controller k is gone past with the state
      unchanged. */
  lemma GetForOtherController(s: UsersState, k: int, parameter: string)
    requires s.Valid() && IsInt32(k) && k != CONTROLLER_ID && NoneOf(parameter, IsSpace)
    ensures GetLine(s, IntToString(k) + ":" + parameter) == Next(s)
  {
    var line := IntToString(k) + ":" + parameter;
    Commands.NoSpaceInPrefixed(k, parameter);
    assert Commands.SplitAtSpace(line) == (line, "");
    Commands.ModulePrefixRoundTrip(k, parameter, 0);
    GetLineSkips(s, GetAddressee(line));
  }

  /** A getCommand line naming a parameter, without white space or prefix, is answered by the
      query of that parameter. */
  lemma GetPlain(s: UsersState, parameter: string)
    requires s.Valid() && NoneOf(parameter, IsSpace) && Commands.FindFirst(parameter, ':').None?
    requires KeywordOf(parameter) != Acquire && Query(s, KeywordOf(parameter)).Some?
    ensures Get(s, [parameter]) == (s, Query(s, KeywordOf(parameter)).value)
  {
    Commands.FindFirstIsFirst(parameter, ' ');
    assert Commands.SplitAtSpace(parameter) == (parameter, "");
  }

  // ----- reading back what was written -----

  /** A text parameter is answered exactly as it was written. */
  lemma PutThenQueryText(s: UsersState, k: Keyword, value: string)
    requires s.Valid() && TextParameter(k)
    ensures PutParameter(s, k, value).1 == Ok(value)
    ensures Query(PutParameter(s, k, value).0, k) == Some(Ok(value))
  {
  }

  /** A number parameter is answered with the number read, printed in decimal; a value that
      does not read as a number throws and changes nothing. */
  lemma PutThenQueryNumber(s: UsersState, k: Keyword, value: string)
    requires s.Valid() && NumberParameter(k)
    ensures StoI(value).None? ==> PutParameter(s, k, value) == (s, Err(DetectorModel.STOI_ERROR))
    ensures StoI(value).Some? ==>
      PutParameter(s, k, value).1 == Ok(value)
      && Query(PutParameter(s, k, value).0, k) == Some(Ok(IntToString(StoI(value).value)))
  {
    if StoI(value).Some? {
      var t := WithNumber(s, k, StoI(value).value);
      assert PutParameter(s, k, value) == (t, Ok(value));
      assert !TextParameter(k);
    }
  }

  /** A count is answered with the number written when that is not negative; a negative
      count leaves the state as it was. */
  lemma PutThenQueryCount(s: UsersState, k: Keyword, value: string)
    requires s.Valid() && CountParameter(k)
    ensures ParseCount(k, value).Some? && ParseCount(k, value).value < 0 ==>
      PutParameter(s, k, value) == (s, Ok(value))
    ensures ParseCount(k, value).Some? && ParseCount(k, value).value >= 0 ==>
      Query(PutParameter(s, k, value).0, k) == Some(Ok(IntToString(ParseCount(k, value).value)))
    ensures ParseCount(k, value).None? ==> PutParameter(s, k, value).0 == s
  {
    if ParseCount(k, value).Some? && ParseCount(k, value).value < 0 {
      assert WithCount(s, k, ParseCount(k, value).value) == s;
    }
  }

  /** "enablefwrite" and "online" are answered "0" after 0, "1" after 1, and as before after
      any other number. */
  lemma PutThenQueryFlag(s: UsersState, k: Keyword, value: string)
    requires s.Valid() && FlagParameter(k) && StoI(value).Some?
    ensures var n := StoI(value).value;
      Query(PutParameter(s, k, value).0, k)
      == Some(Ok(if n == 0 then "0" else if n == 1 then "1" else IntToString(FlagReply(FlagOf(s, k)))))
  {
  }

  /** A settings name is answered as written, and any other word as "undefined"; a timing
      mode name likewise, any other word as "unknown". */
  lemma PutThenQueryTables(s: UsersState, value: string)
    requires s.Valid()
    ensures Query(PutParameter(s, Settings, value).0, Settings)
            == Some(Ok(if SettingsIndex(value) == -1 then "undefined" else value))
    ensures Query(PutParameter(s, Timing, value).0, Timing)
            == Some(Ok(if TimingModeIndex(value) == -1 then "unknown" else value))
  {
    SettingsIndexInverse(value, -1);
    TimingModeRoundTrip(-1, value);
  }

  /** "status start" makes the detector answer "running", "status stop" "idle". */
  lemma PutThenQueryStatus(s: UsersState)
    requires s.Valid()
    ensures Query(PutParameter(s, Status, "start").0, Status) == Some(Ok("running"))
    ensures Query(PutParameter(s, Status, "stop").0, Status) == Some(Ok("idle"))
  {
  }

  /** Writing a text parameter changes that parameter and nothing else: writing its old
      text back gives the state it was written to. */
  lemma WithTextRestores(s: UsersState, k: Keyword, value: string)
    requires s.Valid() && TextParameter(k)
    ensures WithText(WithText(s, k, value), k, TextOf(s, k)) == s
  {
    var e := s.setup.extsig;
    assert e[0 := value][0 := e[0]] == e && e[1 := value][1 := e[1]] == e;
    assert e[2 := value][2 := e[2]] == e && e[3 := value][3 := e[3]] == e;
  }

  /** Writing a number parameter changes that number and nothing else. */
  lemma WithNumberRestores(s: UsersState, k: Keyword, n: int)
    requires s.Valid() && NumberParameter(k)
    ensures WithNumber(WithNumber(s, k, n), k, NumberOf(s, k)) == s
  {
  }

  // ----- the version answers and the extsig parameters -----

  /** A version answer of getCommand: hexadecimal digits reading back as n. */
  predicate AnswersHex(q: Option<Result<string>>, n: int) {
    q.Some? && q.value.Ok? && AllHexDigits(q.value.value) && HexDigitsValue(q.value.value) == n
  }

  /** Every version parameter is answered with its number printed by "%x": hexadecimal
      digits that read back as the number taken modulo 2^64, its 64-bit two's complement. */
  lemma VersionReplies(s: UsersState, k: Keyword)
    requires s.Valid() && VersionParameter(k)
    ensures AnswersHex(Query(s, k), VersionNumber(k) % 0x1_0000_0000_0000_0000)
  {
    assert Query(s, k) == Some(Ok(Commands.Hex64(VersionNumber(k))));
    Commands.HexOfNat(VersionNumber(k) % 0x1_0000_0000_0000_0000);
  }

  /** The module firmware version and serial number are -1, which reads back as 2^64 - 1;
      the detector's and the software's versions are positive and read back as they are. */
  lemma VersionNumbers()
    ensures VersionNumber(ModuleVersion) % 0x1_0000_0000_0000_0000 == 0xFFFF_FFFF_FFFF_FFFF
    ensures VersionNumber(ModuleNumber) % 0x1_0000_0000_0000_0000 == 0xFFFF_FFFF_FFFF_FFFF
    ensures VersionNumber(DetectorVersion) % 0x1_0000_0000_0000_0000 == DETECTOR_FIRMWARE_VERSION
    ensures VersionNumber(DetectorNumber) % 0x1_0000_0000_0000_0000 == DETECTOR_SERIAL_NUMBER
    ensures VersionNumber(SoftwareVersion) % 0x1_0000_0000_0000_0000 == DETECTOR_SOFTWARE_VERSION
    ensures VersionNumber(ThisVersion) % 0x1_0000_0000_0000_0000 == THIS_SOFTWARE_VERSION
  {
  }

  /** The ':' inside "extsig:N" is read as a controller prefix: putCommand answers a bare
      "extsig:0" with "" and changes nothing. */
  lemma PutExtSigUnprefixed(s: UsersState, v: string)
    requires s.Valid()
    ensures Put(s, ["extsig:0", v]) == (s, Ok(""))
  {
    ExtSigWord();
  }

  /** getCommand throws on a bare "extsig:0", since `std::stoi` reads the prefix "extsig". */
  lemma GetExtSigUnprefixed(s: UsersState)
    requires s.Valid()
    ensures Get(s, ["extsig:0"]) == (s, Err(DetectorModel.STOI_ERROR))
  {
    ExtSigWord();
    assert GetLine(s, "extsig:0") == Answer(Err(DetectorModel.STOI_ERROR));
  }

  /** Only the prefixed form "0:extsig:0", the form the setup dump writes, reaches the
      parameter. */
  lemma PutExtSigPrefixed(s: UsersState, v: string)
    requires s.Valid() && Commands.NoTrailingSpace(v)
    ensures Put(s, ["0:extsig:0", v]).0.setup.extsig == s.setup.extsig[0 := v]
  {
    PrefixedExtSigWord();
    Commands.CommandValueSingle("0:extsig:0", v);
  }

  lemma ExtSigWord()
    ensures Commands.FindFirst("extsig:0", ':') == Some(6)
    ensures Commands.FindFirst("extsig:0", ' ') == None
    ensures Commands.SplitAtSpace("extsig:0").0 == "extsig:0"
    ensures PutAddressee("extsig:0") == None
    ensures GetAddressee("extsig:0") == Err(DetectorModel.STOI_ERROR)
  {
    assert "extsig:0"[..6] == "extsig";
    assert LeadingDigits(SkipSpaces("extsig")) == [];
  }

  lemma PrefixedExtSigWord()
    ensures PutAddressee("0:extsig:0") == Some("extsig:0")
    ensures KeywordOf("extsig:0") == ExtSig0
  {
    assert Commands.FindFirst("0:extsig:0", ':') == Some(1);
    assert "0:extsig:0"[..1] == IntToString(CONTROLLER_ID);
    assert "0:extsig:0"[2..] == "extsig:0";
    SpellsExtSig0();
  }
}
