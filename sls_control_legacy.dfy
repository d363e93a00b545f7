/** The control device of the legacy generation, built on `slsDetectorUsers`: commands are
    handed over as argument vectors through `putCommand`, the base configuration is a file
    the detector reads, and the modules are polled with `getCommand`. */
module LegacySlsControls {
  import opened Wrappers
  import opened Text
  import opened ControlConfig
  import DetectorCommands
  import UsersModel
  import UsersCommands

  // ----- sendConfiguration(command, parameters, pos) -----

  /** `boost::is_any_of(", ")`. */
  predicate IsListSeparator(c: char) {
    c == ',' || c == ' '
  }

  /** The argument vector handed to `putCommand`: the command, then the parameters split at
      every comma and every space (no token compression, so empty tokens stay). */
  function Arguments(c: Command): seq<string> {
    [c.name] + Split(c.params, IsListSeparator)
  }

  /** The calls `sendConfiguration(command, parameters, pos)` makes: none unless the device is
      ON, none for an empty command, otherwise one `putCommand` at the position. */
  function Sent(s: State, c: Command): seq<Call> {
    if s != On || c.name == [] then [] else [PutCommand(Arguments(c), c.pos)]
  }

  function SentAll(s: State, cs: seq<Command>): seq<Call>
    decreases |cs|
  {
    if cs == [] then [] else Sent(s, cs[0]) + SentAll(s, cs[1..])
  }

  lemma {:induction false} SentAllAppend(s: State, a: seq<Command>, b: seq<Command>)
    ensures SentAll(s, a + b) == SentAll(s, a) + SentAll(s, b)
    decreases |a|
  {
    if a != [] {
      assert (a + b)[0] == a[0] && (a + b)[1..] == a[1..] + b;
      SentAllAppend(s, a[1..], b);
      assert SentAll(s, a + b) == Sent(s, a[0]) + SentAll(s, a[1..] + b);
    } else {
      assert a + b == b;
    }
  }

  /** Nothing reaches the detector unless the device is ON. */
  lemma {:induction false} SentAllNotOn(s: State, cs: seq<Command>)
    requires s != On
    ensures SentAll(s, cs) == []
    decreases |cs|
  {
    if cs != [] {
      SentAllNotOn(s, cs[1..]);
    }
  }

  /** While ON, every command with a name is one `putCommand`, in order. */
  lemma {:induction false} SentAllOn(cs: seq<Command>)
    requires forall i | 0 <= i < |cs| :: cs[i].name != []
    ensures |SentAll(On, cs)| == |cs|
    ensures forall i | 0 <= i < |cs| :: SentAll(On, cs)[i] == PutCommand(Arguments(cs[i]), cs[i].pos)
    decreases |cs|
  {
    if cs != [] {
      SentAllOn(cs[1..]);
      assert forall i | 1 <= i < |cs| :: cs[i] == cs[1..][i - 1];
    }
  }

  /** The command comes first and every parameter token after it; there is one token more than
      there are commas and spaces, none of them holds one, and parameters without either are
      a single argument. */
  lemma ArgumentsRule(c: Command)
    ensures Arguments(c)[0] == c.name
    ensures |Arguments(c)| == SeparatorCount(c.params, IsListSeparator) + 2
    ensures forall i | 1 <= i < |Arguments(c)| :: NoneOf(Arguments(c)[i], IsListSeparator)
    ensures NoneOf(c.params, IsListSeparator) ==> Arguments(c) == [c.name, c.params]
  {
    SplitTokensClean(c.params, IsListSeparator);
    assert forall i | 1 <= i < |Arguments(c)| :: Arguments(c)[i] == Split(c.params, IsListSeparator)[i - 1];
    if NoneOf(c.params, IsListSeparator) {
      SplitNoSeparator(c.params, IsListSeparator);
    }
  }

  /** Values written as a comma separated list arrive as separate arguments, one per value. */
  lemma ListArguments(name: string, values: seq<string>, pos: int)
    requires values != [] && forall i | 0 <= i < |values| :: NoneOf(values[i], IsListSeparator)
    ensures Arguments(Command(name, Join(values, ","), pos)) == [name] + values
  {
    SplitJoin(values, ',', IsListSeparator);
  }

  /** End to end with the simulated `slsDetectorUsers`: a command word without a controller
      prefix and a value without commas, spaces or trailing white space reach the controller as
      that parameter with that value. */
  lemma SentValueReachesDetector(s: UsersModel.UsersState, c: Command)
    requires s.Valid() && DetectorCommands.FindFirst(c.name, ':').None?
    requires NoneOf(c.params, IsListSeparator) && DetectorCommands.NoTrailingSpace(c.params)
    ensures UsersCommands.Put(s, Arguments(c)) == UsersCommands.PutParameter(s, UsersCommands.KeywordOf(c.name), c.params)
  {
    ArgumentsRule(c);
    UsersCommands.PutSingleValue(s, c.name, c.params);
  }

  /** A command word "<word>:<rest>" whose word is not the controller id "0" is taken by the
      simulated `slsDetectorUsers` for another controller: it answers nothing and changes
      nothing.  The "extsig:1" .. "extsig:3" commands of the initial configuration are such
      words. */
  lemma OtherControllerIgnored(s: UsersModel.UsersState, word: string, rest: string, params: string, pos: int)
    requires s.Valid() && DetectorCommands.FindFirst(word, ':').None? && word != "0"
    ensures UsersCommands.Put(s, Arguments(Command(word + ":" + rest, params, pos))) == (s, Ok(""))
  {
    var w := word + ":" + rest;
    DetectorCommands.FindFirstIsFirst(word, ':');
    DetectorCommands.FindFirstAfter(word, ":" + rest, ':');
    assert w == word + (":" + rest);
    assert w[..|word|] == word;
    assert IntToString(UsersModel.CONTROLLER_ID) == "0";
  }

  // ----- sendConfiguration(hash) -----

  /** The same value for modules 0 .. n-1, one command each. */
  function Broadcast(alias: string, value: string, n: nat): (r: seq<Command>)
    ensures |r| == n
  {
    seq(n, i requires 0 <= i < n => Command(alias, value, i))
  }

  /** The commands the legacy `sendConfiguration(hash)` makes of one key, with n modules. */
  function EntryCommands(n: nat, e: Entry): seq<Command> {
    if e.readOnly then []
    else
      match e.value
      case Simple(t) => [Command(e.alias, t, -1)]
      case Vector(vs) =>
        if |vs| == 0 then []
        else if |vs| == 1 then Broadcast(e.alias, vs[0], n)
        else if |vs| == n then PerModule(e.alias, vs)
        else []
      case Other => []
  }

  function HashCommands(n: nat, entries: seq<Entry>): seq<Command>
    decreases |entries|
  {
    if entries == [] then []
    else HashCommands(n, entries[..|entries| - 1]) + EntryCommands(n, entries[|entries| - 1])
  }

  lemma AppendAssoc(a: seq<Call>, b: seq<Call>, c: seq<Call>)
    ensures (a + b) + c == a + (b + c)
  {
  }

  /** What the first k + 1 keys send is what the first k send, then key k's commands. */
  lemma SentAllHashSnoc(st: State, n: nat, entries: seq<Entry>, k: nat)
    requires k < |entries|
    ensures SentAll(st, HashCommands(n, entries[..k + 1]))
      == SentAll(st, HashCommands(n, entries[..k])) + SentAll(st, EntryCommands(n, entries[k]))
  {
    HashCommandsSnoc(n, entries, k);
    SentAllAppend(st, HashCommands(n, entries[..k]), EntryCommands(n, entries[k]));
  }

  lemma HashCommandsSnoc(n: nat, entries: seq<Entry>, k: nat)
    requires k < |entries|
    ensures HashCommands(n, entries[..k + 1]) == HashCommands(n, entries[..k]) + EntryCommands(n, entries[k])
  {
    assert entries[..k + 1][..k] == entries[..k];
  }

  /** Unlike the current generation, a vector with one value is sent to every module by
      position, one command per module; a vector with one value per module sends value i to
      module i; any other length, a read-only key and a value that is neither simple nor a
      vector send nothing, and a simple value is sent once to all modules. */
  lemma EntryCommandsRule(n: nat, e: Entry)
    ensures e.readOnly || e.value.Other? ==> EntryCommands(n, e) == []
    ensures !e.readOnly && e.value.Simple? ==> EntryCommands(n, e) == [Command(e.alias, e.value.text, -1)]
    ensures !e.readOnly && e.value.Vector? && (|e.value.items| == 1 || |e.value.items| == n) ==>
      && |EntryCommands(n, e)| == n
      && forall i | 0 <= i < n ::
           EntryCommands(n, e)[i] == Command(e.alias, e.value.items[if |e.value.items| == 1 then 0 else i], i)
    ensures !e.readOnly && e.value.Vector? && |e.value.items| != 1 && |e.value.items| != n ==> EntryCommands(n, e) == []
  {
  }

  // ----- the base configuration -----

  /** The vectors the legacy `sendBaseConfiguration` reads. */
  datatype BaseConfig = BaseConfig(
    hostnames: seq<string>,
    detectorIp: seq<string>,
    rxHostname: seq<string>,
    rxTcpPort: seq<nat>,
    rxUdpIp: seq<string>,
    rxUdpPort: seq<nat>)

  predicate Consistent(cfg: BaseConfig) {
    var n := |cfg.hostnames|;
    |cfg.detectorIp| == n && |cfg.rxHostname| == n && |cfg.rxTcpPort| == n && |cfg.rxUdpIp| == n && |cfg.rxUdpPort| == n
  }

  function BaseCheck(cfg: BaseConfig, n: nat): Result<()> {
    SizeCheck(["detectorHostName", "detectorIp", "rxHostname", "rxTcpPort", "rxUdpIp", "rxUdpPort"],
      [|cfg.hostnames|, |cfg.detectorIp|, |cfg.rxHostname|, |cfg.rxTcpPort|, |cfg.rxUdpIp|, |cfg.rxUdpPort|], n)
  }

  /** The size test passes exactly when every vector has one entry per module. */
  lemma BaseCheckRule(cfg: BaseConfig, n: nat)
    ensures BaseCheck(cfg, n).Ok? <==> Consistent(cfg) && |cfg.hostnames| == n
  {
    var sizes := [|cfg.hostnames|, |cfg.detectorIp|, |cfg.rxHostname|, |cfg.rxTcpPort|, |cfg.rxUdpIp|, |cfg.rxUdpPort|];
    SizeCheckRule(["detectorHostName", "detectorIp", "rxHostname", "rxTcpPort", "rxUdpIp", "rxUdpPort"], sizes, n);
    if Consistent(cfg) && |cfg.hostnames| == n {
      assert forall i | 0 <= i < |sizes| :: sizes[i] == n;
    }
    if BaseCheck(cfg, n).Ok? {
      assert sizes[0] == n && sizes[1] == n && sizes[2] == n && sizes[3] == n && sizes[4] == n && sizes[5] == n;
    }
  }

  const BASE_NAMES: seq<string> := ["rx_udpport", "rx_tcpport", "detectorip", "rx_udpip", "rx_hostname"]

  function BaseColumns(cfg: BaseConfig): seq<seq<string>> {
    [Printed(cfg.rxUdpPort), Printed(cfg.rxTcpPort), cfg.detectorIp, cfg.rxUdpIp, cfg.rxHostname]
  }

  function BaseFile(cfg: BaseConfig): string
    requires Consistent(cfg)
  {
    BaseText(cfg.hostnames, BASE_NAMES, BaseColumns(cfg))
  }

  /** The file names the hosts on its first line; module i's block follows as five lines:
      receiver UDP port, receiver TCP port, detector IP, receiver UDP IP, receiver host. */
  lemma BaseFileOrder(cfg: BaseConfig, i: nat)
    requires Consistent(cfg) && i < |cfg.hostnames|
    ensures var lines := BaseLines(cfg.hostnames, BASE_NAMES, BaseColumns(cfg));
      && BaseFile(cfg) == Terminated(lines, "\n")
      && lines[0] == "hostname " + Terminated(cfg.hostnames, "+")
      && 1 + 5 * i + 4 < |lines|
      && lines[1 + 5 * i] == ModuleLine(i, "rx_udpport", NatToString(cfg.rxUdpPort[i]))
      && lines[1 + 5 * i + 1] == ModuleLine(i, "rx_tcpport", NatToString(cfg.rxTcpPort[i]))
      && lines[1 + 5 * i + 2] == ModuleLine(i, "detectorip", cfg.detectorIp[i])
      && lines[1 + 5 * i + 3] == ModuleLine(i, "rx_udpip", cfg.rxUdpIp[i])
      && lines[1 + 5 * i + 4] == ModuleLine(i, "rx_hostname", cfg.rxHostname[i])
  {
    BaseFileLine(cfg, i, 0);
    BaseFileLine(cfg, i, 1);
    BaseFileLine(cfg, i, 2);
    BaseFileLine(cfg, i, 3);
    BaseFileLine(cfg, i, 4);
  }

  /** Line 1 + 5i + j of the base file sets parameter j of module i. */
  lemma BaseFileLine(cfg: BaseConfig, i: nat, j: nat)
    requires Consistent(cfg) && i < |cfg.hostnames| && j < 5
    ensures var lines := BaseLines(cfg.hostnames, BASE_NAMES, BaseColumns(cfg));
      && lines[0] == "hostname " + Terminated(cfg.hostnames, "+")
      && 1 + 5 * i + j < |lines|
      && lines[1 + 5 * i + j] == ModuleLine(i, BASE_NAMES[j], BaseColumns(cfg)[j][i])
  {
    var cols := BaseColumns(cfg);
    assert Columns(|cfg.hostnames|, BASE_NAMES, cols);
    BaseLinesAt(cfg.hostnames, BASE_NAMES, cols, i, j);
    assert i * |BASE_NAMES| == 5 * i;
  }

  /** The exception a failed `readConfigurationFile` turns into. */
  function ReadError(code: int): string {
    "m_SLS->readConfigurationFile returned code " + IntToString(code)
  }

  /** The outcome of `sendBaseConfiguration`: the size checks, then the code
      `readConfigurationFile` returned. */
  function BaseResult(cfg: BaseConfig, n: nat, readResult: int): Result<()> {
    if BaseCheck(cfg, n).Err? then BaseCheck(cfg, n)
    else if readResult != 0 then Err(ReadError(readResult))
    else Ok(())
  }

  /** The calls of `sendBaseConfiguration`: the file read once the checks pass, and `powerOn`
      once it was read. */
  function BaseCalls(k: Kind, cfg: BaseConfig, n: nat, readResult: int, positions: seq<int>): seq<Call> {
    if !Consistent(cfg) || |cfg.hostnames| != n then []
    else [ReadConfigurationFile(BaseFile(cfg))] + (if readResult != 0 then [] else PowerOnCalls(k, positions))
  }

  /** The detector is powered on exactly when the checks pass and the file was read without
      error; a failed check reads no file. */
  lemma BaseOutcome(k: Kind, cfg: BaseConfig, n: nat, readResult: int, positions: seq<int>)
    ensures BaseResult(cfg, n, readResult).Ok? <==> Consistent(cfg) && |cfg.hostnames| == n && readResult == 0
    ensures BaseResult(cfg, n, readResult).Err? && BaseCheck(cfg, n).Err? ==> BaseCalls(k, cfg, n, readResult, positions) == []
    ensures BaseResult(cfg, n, readResult).Ok? ==>
      BaseCalls(k, cfg, n, readResult, positions) == [ReadConfigurationFile(BaseFile(cfg))] + PowerOnCalls(k, positions)
    ensures BaseCheck(cfg, n).Ok? && readResult != 0 ==>
      BaseResult(cfg, n, readResult) == Err(ReadError(readResult)) &&
      BaseCalls(k, cfg, n, readResult, positions) == [ReadConfigurationFile(BaseFile(cfg))]
  {
    BaseCheckRule(cfg, n);
  }

  // ----- sendInitialConfiguration -----

  /** The parameters the legacy `sendInitialConfiguration` sends before the configuration:
      the directories, external signals off, no headers or scripts, no fine offset, no scans,
      binary files. */
  function InitialCommands(tmpDir: string, home: string): seq<Command> {
    [Command("settingsdir", tmpDir, -1), Command("caldir", tmpDir, -1), Command("ffdir", home, -1),
     Command("extsig:1", "off", -1), Command("extsig:2", "off", -1), Command("extsig:3", "off", -1),
     Command("headerbefore", "none", -1), Command("headerafter", "none", -1),
     Command("headerbeforepar", "none", -1), Command("headerafterpar", "none", -1),
     Command("fineoff", "0.", -1),
     Command("startscript", "none", -1), Command("startscriptpar", "none", -1),
     Command("stopscript", "none", -1), Command("stopscriptpar", "none", -1),
     Command("scriptbefore", "none", -1), Command("scriptbeforepar", "none", -1),
     Command("scriptafter", "none", -1), Command("scriptafterpar", "none", -1),
     Command("scan0script", "0", -1), Command("scan0par", "0", -1), Command("scan0prec", "0", -1), Command("scan0steps", "0", -1),
     Command("scan1script", "0", -1), Command("scan1par", "0", -1), Command("scan1prec", "0", -1), Command("scan1steps", "0", -1),
     Command("fileformat", "binary", -1)]
  }

  /** 28 commands, all to every module, the directories first and the file format last. */
  lemma InitialCommandsShape(tmpDir: string, home: string)
    ensures var cs := InitialCommands(tmpDir, home);
      && |cs| == 28
      && (forall i | 0 <= i < |cs| :: cs[i].pos == -1 && cs[i].name != [])
      && cs[0] == Command("settingsdir", tmpDir, -1) && cs[1] == Command("caldir", tmpDir, -1)
      && cs[2] == Command("ffdir", home, -1)
      && cs[27] == Command("fileformat", "binary", -1)
  {
  }

  // ----- the ports of the detectors -----

  /** The port each detector is checked on, when it has none of its own. */
  const DEFAULT_PORT: nat := 1952

  /** `areDetectorsOnline`'s ports: the configured ones resized to one per host, padded with the
      default port; all default when none are configured. */
  function DetectorPorts(hostCount: nat, configured: Option<seq<nat>>): (r: seq<nat>)
    ensures |r| == hostCount
  {
    match configured
    case None => seq(hostCount, _ => DEFAULT_PORT)
    case Some(p) => if hostCount <= |p| then p[..hostCount] else p + seq(hostCount - |p|, _ => DEFAULT_PORT)
  }

  /** Host i is checked on its configured port if it has one and on the default port
      otherwise. */
  lemma DetectorPortsRule(hostCount: nat, configured: Option<seq<nat>>, i: nat)
    requires i < hostCount
    ensures DetectorPorts(hostCount, configured)[i] ==
      if configured.Some? && i < |configured.value| then configured.value[i] else DEFAULT_PORT
  {
  }

  // ----- polling -----

  /** A polled key: its alias (None when looking it up throws) and whether it is a vector. */
  datatype Path = Path(alias: Option<string>, vector: bool)

  /** The `getCommand` queries of one key: module 0 for a simple value, every module for a
      vector, none when the alias is unknown. */
  function PathQueries(n: nat, p: Path): (r: seq<Call>) {
    if p.alias.None? then []
    else if !p.vector then [GetCommand([p.alias.value], 0)]
    else seq(n, i requires 0 <= i < n => GetCommand([p.alias.value], i))
  }

  function AllQueries(n: nat, paths: seq<Path>): seq<Call>
    decreases |paths|
  {
    if paths == [] then [] else AllQueries(n, paths[..|paths| - 1]) + PathQueries(n, paths[|paths| - 1])
  }

  lemma {:induction false} AllQueriesAppend(n: nat, a: seq<Path>, b: seq<Path>)
    ensures AllQueries(n, a + b) == AllQueries(n, a) + AllQueries(n, b)
    decreases |b|
  {
    if b != [] {
      assert (a + b)[..|a + b| - 1] == a + b[..|b| - 1];
      assert (a + b)[|a + b| - 1] == b[|b| - 1];
      AllQueriesAppend(n, a, b[..|b| - 1]);
    } else {
      assert a + b == a;
    }
  }

  /** A key whose alias is known is asked of module 0 once when simple, and of each module
      in turn when a vector. */
  lemma PathQueriesRule(n: nat, p: Path)
    ensures p.alias.None? ==> PathQueries(n, p) == []
    ensures p.alias.Some? && !p.vector ==> PathQueries(n, p) == [GetCommand([p.alias.value], 0)]
    ensures p.alias.Some? && p.vector ==>
      |PathQueries(n, p)| == n && forall i | 0 <= i < n :: PathQueries(n, p)[i] == GetCommand([p.alias.value], i)
  {
  }

  /** The device state without the calls it made. */
  datatype Fields = Fields(
    state: State,
    numberOfModules: nat,
    connect: bool,
    firstPoll: bool,
    poll: bool,
    exposureTimer: nat)

  class LegacySlsControl {
    const kind: Kind
    var state: State
    var numberOfModules: nat
    var connect: bool
    var firstPoll: bool
    /** Whether the poll timer is running. */
    var poll: bool
    /** The read-only exposureTimer of a JungfrauControl. */
    var exposureTimer: nat
    /** The calls made on `slsDetectorUsers`, oldest first. */
    var calls: seq<Call>

    function View(): Fields
      reads this
    {
      Fields(state, numberOfModules, connect, firstPoll, poll, exposureTimer)
    }

    /** Not connecting, first poll ahead, not polling; the state starts INIT. */
    constructor(kind: Kind)
      ensures this.kind == kind && calls == []
      ensures View() == Fields(Init, 0, false, true, false, 0)
    {
      this.kind := kind;
      state := Init;
      numberOfModules := 0;
      connect := false;
      firstPoll := true;
      poll := false;
      exposureTimer := 0;
      calls := [];
    }

    /** `initialize`: one module per host name, none when they cannot be read; connecting
        starts. */
    method Initialize(hosts: Option<seq<string>>)
      modifies this
      ensures calls == old(calls)
      ensures View() == old(View()).(numberOfModules := if hosts.Some? then |hosts.value| else 0, connect := true)
    {
      numberOfModules := if hosts.Some? then |hosts.value| else 0;
      connect := true;
    }

    /** `sendConfiguration(command, parameters, pos)`. */
    method SendCommand(name: string, params: string, pos: int)
      modifies this
      ensures calls == old(calls) + Sent(state, Command(name, params, pos))
      ensures View() == old(View())
    {
      if state != On {
        return;
      }
      if |name| == 0 {
        return;
      }
      calls := calls + [PutCommand([name] + Split(params, IsListSeparator), pos)];
    }

    method SendCommands(cs: seq<Command>)
      modifies this
      ensures calls == old(calls) + SentAll(state, cs)
      ensures View() == old(View())
    {
      ghost var st := state;
      for k := 0 to |cs|
        invariant View() == old(View()) && state == st
        invariant calls == old(calls) + SentAll(st, cs[..k])
      {
        SendCommand(cs[k].name, cs[k].params, cs[k].pos);
        assert cs[..k + 1] == cs[..k] + [cs[k]];
        SentAllAppend(st, cs[..k], [cs[k]]);
      }
      assert cs[..|cs|] == cs;
    }

    /** `sendConfiguration(hash)`: nothing unless ON, otherwise the commands of every key in
        order. */
    method SendHash(entries: seq<Entry>)
      modifies this
      ensures calls == old(calls) + SentAll(state, HashCommands(numberOfModules, entries))
      ensures View() == old(View())
    {
      if state != On {
        SentAllNotOn(state, HashCommands(numberOfModules, entries));
        return;
      }
      SendEntries(entries);
    }

    method SendEntries(entries: seq<Entry>)
      modifies this
      ensures calls == old(calls) + SentAll(state, HashCommands(numberOfModules, entries))
      ensures View() == old(View())
    {
      ghost var n := numberOfModules;
      ghost var st := state;
      for k := 0 to |entries|
        invariant View() == old(View()) && state == st && numberOfModules == n
        invariant calls == old(calls) + SentAll(st, HashCommands(n, entries[..k]))
      {
        ghost var done := SentAll(st, HashCommands(n, entries[..k]));
        ghost var next := SentAll(st, EntryCommands(n, entries[k]));
        SendEntry(entries[k]);
        SentAllHashSnoc(st, n, entries, k);
        AppendAssoc(old(calls), done, next);
      }
      assert entries[..|entries|] == entries;
    }

    method SendEntry(e: Entry)
      modifies this
      ensures calls == old(calls) + SentAll(state, EntryCommands(numberOfModules, e))
      ensures View() == old(View())
    {
      if e.readOnly {
        return;
      }
      match e.value
      case Simple(t) =>
        SendCommand(e.alias, t, -1);
        assert [Command(e.alias, t, -1)][1..] == [];
      case Vector(vs) =>
        if |vs| == 0 {
        } else if |vs| == 1 {
          SendCommands(Broadcast(e.alias, vs[0], numberOfModules));
        } else if |vs| == numberOfModules {
          SendCommands(PerModule(e.alias, vs));
        }
      case Other =>
    }

    /** `powerOn` of the specialisation, on the given modules. */
    method PowerOn(positions: seq<int>)
      modifies this
      ensures calls == old(calls) + PowerOnCalls(kind, positions)
      ensures View() == old(View())
    {
      match kind
      case Jungfrau =>
        calls := calls + [SetPowerChip(true, positions)];
        calls := calls + [WriteRegister(READOUT_TIMEOUT, READOUT_TIMEOUT_VALUE, positions)];
      case Gotthard =>
      case Gotthard2 =>
        calls := calls + [SetPowerChip(true, positions)];
    }

    /** `sendBaseConfiguration`: the size checks, the file read by the detector, then
        `powerOn`; `readResult` is the code `readConfigurationFile` returns. */
    method SendBaseConfiguration(cfg: BaseConfig, readResult: int, positions: seq<int>) returns (r: Result<()>)
      modifies this
      ensures r == BaseResult(cfg, numberOfModules, readResult)
      ensures calls == old(calls) + BaseCalls(kind, cfg, numberOfModules, readResult, positions)
      ensures View() == old(View())
    {
      BaseCheckRule(cfg, numberOfModules);
      r := BaseCheck(cfg, numberOfModules);
      if r.Err? {
        return;
      }
      calls := calls + [ReadConfigurationFile(BaseFile(cfg))];
      if readResult != 0 {
        r := Err(ReadError(readResult));
        return;
      }
      PowerOn(positions);
    }

    /** `sendInitialConfiguration`: the fixed parameters, then the configuration. */
    method SendInitialConfiguration(tmpDir: string, home: string, entries: seq<Entry>)
      modifies this
      ensures calls == old(calls) + SentAll(state, InitialCommands(tmpDir, home) + HashCommands(numberOfModules, entries))
      ensures View() == old(View())
    {
      SendFixedThenHash(InitialCommands(tmpDir, home), entries);
    }

    /** The given commands, then the configuration. */
    method SendFixedThenHash(fixed: seq<Command>, entries: seq<Entry>)
      modifies this
      ensures calls == old(calls) + SentAll(state, fixed + HashCommands(numberOfModules, entries))
      ensures View() == old(View())
    {
      ghost var st := state;
      SendCommands(fixed);
      SendHash(entries);
      SentAllAppend(st, fixed, HashCommands(numberOfModules, entries));
    }

    /** What `connect` and `reset` do once the hardware answers: ON, the base configuration,
        then the initial one; a failure of the base configuration leaves the device in ERROR
        (its message is `r`). */
    method ConfigureOnline(cfg: BaseConfig, readResult: int, positions: seq<int>, tmpDir: string, home: string, entries: seq<Entry>)
      returns (r: Result<()>)
      modifies this
      ensures r == BaseResult(cfg, old(numberOfModules), readResult)
      ensures calls == old(calls) + BaseCalls(kind, cfg, old(numberOfModules), readResult, positions)
                                  + InitialCalls(r.Ok?, tmpDir, home, old(numberOfModules), entries)
      ensures View() == old(View()).(state := if r.Ok? then On else Error)
    {
      state := On;
      r := SendBaseConfiguration(cfg, readResult, positions);
      if r.Err? {
        state := Error;
        return;
      }
      SendInitialConfiguration(tmpDir, home, entries);
    }

    /** `connect`: with the detectors online, configure when the receivers are too and go to
        ERROR when they are not, then start polling; with the detectors offline, UNKNOWN and
        another attempt later while connecting is on.  The receivers are only asked about when
        the detectors are online. */
    method Connect(detectorsOnline: bool, receiversOnline: bool, cfg: BaseConfig, readResult: int, positions: seq<int>,
                   tmpDir: string, home: string, entries: seq<Entry>) returns (retry: bool)
      modifies this
      ensures retry <==> !detectorsOnline && old(connect)
      ensures !detectorsOnline ==> (calls == old(calls) &&
        View() == (if old(connect) then old(View()).(state := Unknown) else old(View())))
      ensures detectorsOnline && !receiversOnline ==> calls == old(calls) && View() == old(View()).(state := Error, poll := true)
      ensures detectorsOnline && receiversOnline ==>
        var ok := BaseResult(cfg, old(numberOfModules), readResult).Ok?;
        && calls == old(calls) + BaseCalls(kind, cfg, old(numberOfModules), readResult, positions)
                               + InitialCalls(ok, tmpDir, home, old(numberOfModules), entries)
        && View() == old(View()).(state := if ok then On else Error, poll := true)
    {
      retry := false;
      if detectorsOnline {
        if receiversOnline {
          var _ := ConfigureOnline(cfg, readResult, positions, tmpDir, home, entries);
        } else {
          state := Error;
        }
        poll := true;
      } else if connect {
        if state != Unknown {
          state := Unknown;
        }
        retry := true;
      }
    }

    /** `reset`: configure again when the receivers are online, otherwise nothing. */
    method Reset(receiversOnline: bool, cfg: BaseConfig, readResult: int, positions: seq<int>,
                 tmpDir: string, home: string, entries: seq<Entry>)
      modifies this
      ensures !receiversOnline ==> calls == old(calls) && View() == old(View())
      ensures receiversOnline ==>
        var ok := BaseResult(cfg, old(numberOfModules), readResult).Ok?;
        && calls == old(calls) + BaseCalls(kind, cfg, old(numberOfModules), readResult, positions)
                               + InitialCalls(ok, tmpDir, home, old(numberOfModules), entries)
        && View() == old(View()).(state := if ok then On else Error)
    {
      if receiversOnline {
        var _ := ConfigureOnline(cfg, readResult, positions, tmpDir, home, entries);
      }
    }

    /** `stop`: the measurement stopped and the device ON. */
    method Stop()
      modifies this
      ensures calls == old(calls) + [StopMeasurement]
      ensures View() == old(View()).(state := On)
    {
      calls := calls + [StopMeasurement];
      state := On;
    }

    /** `pollHardware`: detectors offline means UNKNOWN and reconnecting, with nothing asked;
        receivers offline means ERROR; then every "poll" key is asked for, and on the first
        poll the "readOnConnect" keys after them. */
    method PollHardware(detectorsOnline: bool, receiversOnline: bool, pollPaths: seq<Path>, onConnectPaths: seq<Path>)
      returns (reconnect: bool)
      modifies this
      ensures reconnect <==> !detectorsOnline
      ensures !detectorsOnline ==> calls == old(calls) && View() == old(View()).(state := Unknown, connect := true)
      ensures detectorsOnline ==>
        && calls == old(calls) + AllQueries(old(numberOfModules), pollPaths + (if old(firstPoll) then onConnectPaths else []))
        && View() == old(View()).(state := if !receiversOnline && old(state) != Error then Error else old(state), firstPoll := false)
    {
      if !detectorsOnline {
        state := Unknown;
        connect := true;
        return true;
      }
      if !receiversOnline && state != Error {
        state := Error;
      }
      var paths := pollPaths;
      if firstPoll {
        firstPoll := false;
        paths := paths + onConnectPaths;
      }
      assert paths == pollPaths + (if old(firstPoll) then onConnectPaths else []);
      assert numberOfModules == old(numberOfModules);
      QueryPaths(paths);
      reconnect := false;
    }

    /** The queries of the polled keys, one key after the other. */
    method QueryPaths(paths: seq<Path>)
      modifies this
      ensures calls == old(calls) + AllQueries(numberOfModules, paths)
      ensures View() == old(View())
    {
      ghost var n := numberOfModules;
      for k := 0 to |paths|
        invariant View() == old(View()) && numberOfModules == n
        invariant calls == old(calls) + AllQueries(n, paths[..k])
      {
        QueryPath(paths[k]);
        assert paths[..k + 1][..k] == paths[..k];
      }
      assert paths[..|paths|] == paths;
    }

    /** The queries of one key; a vector is asked of each module in turn. */
    method QueryPath(p: Path)
      modifies this
      ensures calls == old(calls) + PathQueries(numberOfModules, p)
      ensures View() == old(View())
    {
      if p.alias.None? {
        return;
      }
      var alias := p.alias.value;
      if !p.vector {
        calls := calls + [GetCommand([alias], 0)];
        return;
      }
      ghost var c0 := calls;
      for i := 0 to numberOfModules
        invariant View() == old(View())
        invariant calls == c0 + seq(i, j requires 0 <= j < i => GetCommand([alias], j))
      {
        calls := calls + [GetCommand([alias], i)];
      }
    }

    // ----- JungfrauControl and Gotthard2Control -----

    /** `configureDetectorSpecific` of the legacy JungfrauControl: the same timer and register
        rewrite as the current one. */
    method ConfigureJungfrau(exposureTimeout: Option<nat>, readBack: seq<nat>)
      requires kind == Jungfrau
      modifies this
      ensures exposureTimeout.None? ==> calls == old(calls) && View() == old(View())
      ensures exposureTimeout.Some? ==>
        var timer := ExposureTimer(exposureTimeout.value);
        calls == old(calls) + TimerWrites(readBack, timer) && View() == old(View()).(exposureTimer := timer)
    {
      if exposureTimeout.Some? {
        var timer := ExposureTimer(exposureTimeout.value);
        exposureTimer := timer;
        var writes := WriteTimer(readBack, timer);
        calls := calls + writes;
      }
    }

    /** The destructors of JungfrauControl and Gotthard2Control: the chips powered off when
        there is a detector object; GotthardControl has none. */
    method PowerOff(detectorExists: bool, positions: seq<int>)
      modifies this
      ensures calls == old(calls) + (if detectorExists && kind != Gotthard then [SetPowerChip(false, positions)] else [])
      ensures View() == old(View())
    {
      if detectorExists && kind != Gotthard {
        calls := calls + [SetPowerChip(false, positions)];
      }
    }
  }

  /** The calls of the initial configuration once the base configuration is in place: every
      fixed parameter and every key of the configuration, sent while ON; none when the base
      configuration failed. */
  function InitialCalls(ok: bool, tmpDir: string, home: string, n: nat, entries: seq<Entry>): seq<Call> {
    if ok then SentAll(On, InitialCommands(tmpDir, home) + HashCommands(n, entries)) else []
  }

  /** The calls of configuring once the hardware answers. */
  function OnlineCalls(k: Kind, cfg: BaseConfig, n: nat, readResult: int, positions: seq<int>,
                       tmpDir: string, home: string, entries: seq<Entry>): seq<Call> {
    BaseCalls(k, cfg, n, readResult, positions) + InitialCalls(BaseResult(cfg, n, readResult).Ok?, tmpDir, home, n, entries)
  }

  /** A successful configuration reads the base file, powers on, and sends all 28 fixed
      parameters before the configuration's own; a failed one sends no parameter. */
  lemma OnlineCallsRule(k: Kind, cfg: BaseConfig, n: nat, readResult: int, positions: seq<int>,
                        tmpDir: string, home: string, entries: seq<Entry>)
    ensures var calls := OnlineCalls(k, cfg, n, readResult, positions, tmpDir, home, entries);
      && (BaseResult(cfg, n, readResult).Err? ==> calls == BaseCalls(k, cfg, n, readResult, positions))
      && (BaseResult(cfg, n, readResult).Ok? ==>
            var base := [ReadConfigurationFile(BaseFile(cfg))] + PowerOnCalls(k, positions);
            && calls[..|base|] == base
            && |calls| >= |base| + 28
            && (forall i | 0 <= i < 28 ::
                  calls[|base| + i] == PutCommand(Arguments(InitialCommands(tmpDir, home)[i]), -1)))
  {
    BaseOutcome(k, cfg, n, readResult, positions);
    if BaseResult(cfg, n, readResult).Ok? {
      var fixed := InitialCommands(tmpDir, home);
      InitialCommandsShape(tmpDir, home);
      SentAllAppend(On, fixed, HashCommands(n, entries));
      SentAllOn(fixed);
    }
  }
}
