/** The control devices of the current generation: SlsControl and its JungfrauControl and
    Gotthard2Control specialisations.  They hand the `sls::Detector` one command line at a
    time, write the base configuration to a file the detector loads, and watch the run status
    of the modules. */
module SlsControls {
  import opened Wrappers
  import opened Text
  import opened ControlConfig
  import SimDefs
  import DetectorModel
  import DetectorCommands
  import SimDetector
  import TrainBuffers

  /** The states in which `sendConfiguration` gives up: detector or receiver not online. */
  predicate Offline(s: State) {
    s == Unknown || s == Error
  }

  /** "<pos>:" for a module, nothing for all of them. */
  function PositionPrefix(pos: int): string {
    if pos >= 0 then IntToString(pos) + ":" else ""
  }

  /** The line `sendConfiguration` hands to `loadParameters`. */
  function CommandLine(c: Command): string {
    PositionPrefix(c.pos) + c.name + (if c.params != [] then " " + c.params else "")
  }

  /** The calls `sendConfiguration(command, parameters, pos)` makes: none while offline or for
      an empty command, otherwise `loadParameters` with the one line. */
  function Issued(s: State, c: Command): seq<Call> {
    if Offline(s) || c.name == [] then [] else [LoadParameters([CommandLine(c)])]
  }

  /** The calls of several `sendConfiguration` in a row. */
  function IssuedAll(s: State, cs: seq<Command>): seq<Call>
    decreases |cs|
  {
    if cs == [] then [] else Issued(s, cs[0]) + IssuedAll(s, cs[1..])
  }

  lemma {:induction false} IssuedAllAppend(s: State, a: seq<Command>, b: seq<Command>)
    ensures IssuedAll(s, a + b) == IssuedAll(s, a) + IssuedAll(s, b)
    decreases |a|
  {
    if a != [] {
      assert (a + b)[0] == a[0] && (a + b)[1..] == a[1..] + b;
      IssuedAllAppend(s, a[1..], b);
      assert IssuedAll(s, a + b) == Issued(s, a[0]) + IssuedAll(s, a[1..] + b);
    } else {
      assert a + b == b;
    }
  }

  /** No command reaches the detector while the device is offline. */
  lemma {:induction false} IssuedAllOffline(s: State, cs: seq<Command>)
    requires Offline(s)
    ensures IssuedAll(s, cs) == []
    decreases |cs|
  {
    if cs != [] {
      IssuedAllOffline(s, cs[1..]);
    }
  }

  /** No command reaches the detector while the device is offline; otherwise every command
      with a name is one `loadParameters` call with its line, in order. */
  lemma {:induction false} IssuedAllRule(s: State, cs: seq<Command>)
    ensures Offline(s) ==> IssuedAll(s, cs) == []
    ensures !Offline(s) && (forall i | 0 <= i < |cs| :: cs[i].name != []) ==>
      |IssuedAll(s, cs)| == |cs| && forall i | 0 <= i < |cs| :: IssuedAll(s, cs)[i] == LoadParameters([CommandLine(cs[i])])
    decreases |cs|
  {
    if cs != [] {
      IssuedAllRule(s, cs[1..]);
      if !Offline(s) && (forall i | 0 <= i < |cs| :: cs[i].name != []) {
        assert forall i | 1 <= i < |cs| :: cs[i] == cs[1..][i - 1];
      }
    }
  }

  /** How the simulated detector's `loadParameters` reads a line: split at white space, the
      first word carries the position before ':' and the command after it; the parameters
      follow as further words. */
  lemma CommandLineWords(c: Command)
    requires c.name != [] && DetectorCommands.PlainWord(c.name) && IsInt32(c.pos)
    ensures var words := Split(CommandLine(c), IsSpace);
      && words == [PositionPrefix(c.pos) + c.name] + (if c.params == [] then [] else Split(c.params, IsSpace))
      && DetectorCommands.SplitModulePrefix(words[0], -1) == Ok(DetectorCommands.Addressed(if c.pos >= 0 then c.pos else -1, c.name))
  {
    var head := PositionPrefix(c.pos) + c.name;
    assert NoneOf(head, IsSpace) by {
      IntToStringChars(c.pos);
      forall i | 0 <= i < |head|
        ensures !IsSpace(head[i])
      {
        var p := PositionPrefix(c.pos);
        if i >= |p| {
          assert head[i] == c.name[i - |p|];
        } else if c.pos >= 0 {
          assert p == IntToString(c.pos) + ":";
          if i < |IntToString(c.pos)| {
            assert head[i] == IntToString(c.pos)[i];
          }
        }
      }
    }
    if c.params == [] {
      assert CommandLine(c) == head;
      SplitNoSeparator(head, IsSpace);
    } else {
      assert CommandLine(c) == head + [' '] + c.params;
      SplitAppend(head, c.params, ' ', IsSpace);
    }
    if c.pos >= 0 {
      assert head == IntToString(c.pos) + ":" + c.name;
      DetectorCommands.ModulePrefixRoundTrip(c.pos, c.name, -1);
    } else {
      assert head == c.name;
    }
  }

  /** End to end: the simulated detector's `loadParameters` of the line `sendConfiguration`
      makes puts the command to the module the position names (every module for -1), with the
      parameters as its value. */
  lemma SentLineReachesModule(s: DetectorModel.DetectorState, c: Command)
    requires s.Valid() && c.name != [] && DetectorCommands.PlainWord(c.name) && IsInt32(c.pos) && c.pos < s.Size()
    ensures var words := Split(CommandLine(c), IsSpace);
      && |words| >= 1
      && DetectorCommands.Put(s, words) ==
           DetectorCommands.PutParameter(s, DetectorCommands.KeywordOf(c.name), if c.pos >= 0 then c.pos else -1,
             DetectorCommands.CommandValue(words), words[1..])
      && SimDetector.LoadLines(s, [CommandLine(c)]).0 == DetectorCommands.Put(s, words).0
  {
    var words := Split(CommandLine(c), IsSpace);
    CommandLineWords(c);
    var rest := if c.params == [] then [] else Split(c.params, IsSpace);
    if c.pos >= 0 {
      assert words == [IntToString(c.pos) + ":" + c.name] + rest;
      DetectorCommands.PutAddressed(s, c.pos, c.name, rest);
    } else {
      assert words == [c.name] + rest;
      DetectorCommands.PutPlain(s, c.name, rest);
    }
    assert [CommandLine(c)][1..] == [];
  }

  // ----- sendConfiguration(hash) -----

  /** The commands `sendConfiguration(hash)` makes of one key, with n modules. */
  function EntryCommands(n: nat, e: Entry): seq<Command> {
    if e.readOnly then []
    else
      match e.value
      case Simple(t) => [Command(e.alias, t, -1)]
      case Vector(vs) =>
        if |vs| == 0 then []
        else if |vs| == 1 then [Command(e.alias, vs[0], -1)]
        else if |vs| == n then PerModule(e.alias, vs)
        else []
      case Other => []
  }

  /** The commands of a whole configuration, key by key. */
  function HashCommands(n: nat, entries: seq<Entry>): seq<Command>
    decreases |entries|
  {
    if entries == [] then []
    else HashCommands(n, entries[..|entries| - 1]) + EntryCommands(n, entries[|entries| - 1])
  }

  lemma AppendAssoc(a: seq<Call>, b: seq<Call>, c: seq<Call>)
    ensures (a + b) + c == a + (b + c)
  {
  }

  /** What the first k + 1 keys send is what the first k send, then key k's commands. */
  lemma IssuedAllHashSnoc(st: State, n: nat, entries: seq<Entry>, k: nat)
    requires k < |entries|
    ensures IssuedAll(st, HashCommands(n, entries[..k + 1]))
      == IssuedAll(st, HashCommands(n, entries[..k])) + IssuedAll(st, EntryCommands(n, entries[k]))
  {
    HashCommandsSnoc(n, entries, k);
    IssuedAllAppend(st, HashCommands(n, entries[..k]), EntryCommands(n, entries[k]));
  }

  lemma HashCommandsSnoc(n: nat, entries: seq<Entry>, k: nat)
    requires k < |entries|
    ensures HashCommands(n, entries[..k + 1]) == HashCommands(n, entries[..k]) + EntryCommands(n, entries[k])
  {
    assert entries[..k + 1][..k] == entries[..k];
  }

  /** Read-only keys and values that are neither simple nor vectors send nothing; a simple value
      is sent once to all modules; a vector is skipped when empty, sent once to all modules when
      it holds one value, sent to module i with value i when it holds one value per module,
      and skipped otherwise. */
  lemma EntryCommandsRule(n: nat, e: Entry)
    ensures e.readOnly || e.value.Other? ==> EntryCommands(n, e) == []
    ensures !e.readOnly && e.value.Simple? ==> EntryCommands(n, e) == [Command(e.alias, e.value.text, -1)]
    ensures !e.readOnly && e.value.Vector? ==>
      var vs := e.value.items;
      && (|vs| == 1 ==> EntryCommands(n, e) == [Command(e.alias, vs[0], -1)])
      && (|vs| != 1 && |vs| == n ==>
            |EntryCommands(n, e)| == n && forall i | 0 <= i < n :: EntryCommands(n, e)[i] == Command(e.alias, vs[i], i))
      && (|vs| != 1 && |vs| != n ==> EntryCommands(n, e) == [])
  {
  }

  /** With one value per module and a plain alias, line i of a vector key puts value i to
      module i of the simulated detector. */
  lemma VectorReachesModules(s: DetectorModel.DetectorState, e: Entry, i: nat)
    requires s.Valid() && !e.readOnly && e.value.Vector? && |e.value.items| == s.Size() != 1
    requires e.alias != [] && DetectorCommands.PlainWord(e.alias) && i < s.Size() && IsInt32(i)
    ensures var c := EntryCommands(s.Size(), e)[i];
      var words := Split(CommandLine(c), IsSpace);
      && c == Command(e.alias, e.value.items[i], i)
      && DetectorCommands.Put(s, words) ==
           DetectorCommands.PutParameter(s, DetectorCommands.KeywordOf(e.alias), i, DetectorCommands.CommandValue(words), words[1..])
  {
    EntryCommandsRule(s.Size(), e);
    SentLineReachesModule(s, EntryCommands(s.Size(), e)[i]);
  }

  // ----- the base configuration -----

  /** The vectors `sendBaseConfiguration` reads from the device configuration. */
  datatype BaseConfig = BaseConfig(
    hostnames: seq<string>,
    udpSrcIp: seq<string>,
    rxHostname: seq<string>,
    rxTcpPort: seq<nat>,
    udpDstIp: seq<string>,
    udpDstPort: seq<nat>)

  /** Every vector of `cfg` has one entry per host. */
  predicate Consistent(cfg: BaseConfig) {
    var n := |cfg.hostnames|;
    |cfg.udpSrcIp| == n && |cfg.rxHostname| == n && |cfg.rxTcpPort| == n && |cfg.udpDstIp| == n && |cfg.udpDstPort| == n
  }

  /** The sizes are checked in this order. */
  function BaseCheck(cfg: BaseConfig, n: nat): Result<()> {
    SizeCheck(["detectorHostName", "udpSrcIp", "rxHostname", "rxTcpPort", "udpDstIp", "udpDstPort"],
      [|cfg.hostnames|, |cfg.udpSrcIp|, |cfg.rxHostname|, |cfg.rxTcpPort|, |cfg.udpDstIp|, |cfg.udpDstPort|], n)
  }

  /** The size test passes exactly when every vector has one entry per module. */
  lemma BaseCheckRule(cfg: BaseConfig, n: nat)
    ensures BaseCheck(cfg, n).Ok? <==> Consistent(cfg) && |cfg.hostnames| == n
  {
    var sizes := [|cfg.hostnames|, |cfg.udpSrcIp|, |cfg.rxHostname|, |cfg.rxTcpPort|, |cfg.udpDstIp|, |cfg.udpDstPort|];
    SizeCheckRule(["detectorHostName", "udpSrcIp", "rxHostname", "rxTcpPort", "udpDstIp", "udpDstPort"], sizes, n);
    if Consistent(cfg) && |cfg.hostnames| == n {
      assert forall i | 0 <= i < |sizes| :: sizes[i] == n;
    }
    if BaseCheck(cfg, n).Ok? {
      assert sizes[0] == n && sizes[1] == n && sizes[2] == n && sizes[3] == n && sizes[4] == n && sizes[5] == n;
    }
  }

  /** The parameters of a module's block, in the order the detector needs them. */
  const BASE_NAMES: seq<string> := ["udp_dstport", "rx_tcpport", "udp_srcip", "udp_dstip", "rx_hostname"]

  function BaseColumns(cfg: BaseConfig): seq<seq<string>> {
    [Printed(cfg.udpDstPort), Printed(cfg.rxTcpPort), cfg.udpSrcIp, cfg.udpDstIp, cfg.rxHostname]
  }

  /** The text of base.config. */
  function BaseFile(cfg: BaseConfig): string
    requires Consistent(cfg)
  {
    BaseText(cfg.hostnames, BASE_NAMES, BaseColumns(cfg))
  }

  /** The file names the hosts on its first line; module i's block follows as five lines:
      UDP destination port, receiver TCP port, UDP source IP, UDP destination IP, receiver
      host. */
  lemma BaseFileOrder(cfg: BaseConfig, i: nat)
    requires Consistent(cfg) && i < |cfg.hostnames|
    ensures var lines := BaseLines(cfg.hostnames, BASE_NAMES, BaseColumns(cfg));
      && BaseFile(cfg) == Terminated(lines, "\n")
      && lines[0] == "hostname " + Terminated(cfg.hostnames, "+")
      && 1 + 5 * i + 4 < |lines|
      && lines[1 + 5 * i] == ModuleLine(i, "udp_dstport", NatToString(cfg.udpDstPort[i]))
      && lines[1 + 5 * i + 1] == ModuleLine(i, "rx_tcpport", NatToString(cfg.rxTcpPort[i]))
      && lines[1 + 5 * i + 2] == ModuleLine(i, "udp_srcip", cfg.udpSrcIp[i])
      && lines[1 + 5 * i + 3] == ModuleLine(i, "udp_dstip", cfg.udpDstIp[i])
      && lines[1 + 5 * i + 4] == ModuleLine(i, "rx_hostname", cfg.rxHostname[i])
  {
    BaseFileLine(cfg, i, 0);
    BaseFileLine(cfg, i, 1);
    BaseFileLine(cfg, i, 2);
    BaseFileLine(cfg, i, 3);
    BaseFileLine(cfg, i, 4);
  }

  /** Line 1 + 5i + j of the base file sets parameter j of module i. */
  lemma BaseFileLine(cfg: BaseConfig, i: nat, j: nat)
    requires Consistent(cfg) && i < |cfg.hostnames| && j < 5
    ensures var lines := BaseLines(cfg.hostnames, BASE_NAMES, BaseColumns(cfg));
      && lines[0] == "hostname " + Terminated(cfg.hostnames, "+")
      && 1 + 5 * i + j < |lines|
      && lines[1 + 5 * i + j] == ModuleLine(i, BASE_NAMES[j], BaseColumns(cfg)[j][i])
  {
    var cols := BaseColumns(cfg);
    assert Columns(|cfg.hostnames|, BASE_NAMES, cols);
    BaseLinesAt(cfg.hostnames, BASE_NAMES, cols, i, j);
    assert i * |BASE_NAMES| == 5 * i;
  }

  // ----- shared memory id and high voltage -----

  /** `0x7FFFFFFF & hash`: the low 31 bits of the hash. */
  function ShmId(hash: nat): nat {
    hash % 0x8000_0000
  }

  /** The id fits a signed 32-bit integer, and a hash that already does is its own id. */
  lemma ShmIdRange(hash: nat)
    ensures ShmId(hash) < 0x8000_0000 && IsInt32(ShmId(hash))
    ensures hash < 0x8000_0000 ==> ShmId(hash) == hash
    ensures ShmId(hash + 0x8000_0000) == ShmId(hash)
  {
  }

  /** The limit the high voltage is checked against: the incoming maximum if the
      reconfiguration carries one, the current one otherwise. */
  function VoltageLimit(incomingMax: Option<nat>, currentMax: nat): nat {
    if incomingMax.Some? then incomingMax.value else currentMax
  }

  /** `preReconfigure`'s check: walks the incoming high voltages and erases the key as soon as
      one of them is above the limit. */
  method CheckHighVoltage(highVoltage: Option<seq<nat>>, incomingMax: Option<nat>, currentMax: nat)
    returns (kept: Option<seq<nat>>)
    ensures highVoltage.None? ==> kept.None?
    ensures kept.Some? ==> (kept == highVoltage &&
      forall i | 0 <= i < |kept.value| :: kept.value[i] <= VoltageLimit(incomingMax, currentMax))
    ensures highVoltage.Some? && kept.None? ==>
      exists i | 0 <= i < |highVoltage.value| :: highVoltage.value[i] > VoltageLimit(incomingMax, currentMax)
  {
    kept := highVoltage;
    if highVoltage.Some? {
      var limit := VoltageLimit(incomingMax, currentMax);
      var values := highVoltage.value;
      for i := 0 to |values|
        invariant kept.Some? ==> kept == highVoltage && forall j | 0 <= j < i :: values[j] <= limit
        invariant kept.None? ==> exists j | 0 <= j < i :: values[j] > limit
      {
        if values[i] > limit {
          kept := None;
        }
      }
    }
  }

  /** Setting acquisitionTime needs a timing mode it can convert for: "trigger" or "auto", the
      incoming one if given, the current one otherwise. */
  function AcquisitionTimeCheck(acquisitionTime: bool, incomingTiming: Option<string>, currentTiming: string): (r: Result<()>)
    ensures r.Err? <==> acquisitionTime && (if incomingTiming.Some? then incomingTiming.value else currentTiming) !in {"trigger", "auto"}
    ensures r.Err? ==> r.message == "Do not know how to set acquisitionTime in case of timing=" + (if incomingTiming.Some? then incomingTiming.value else currentTiming)
  {
    var timing := if incomingTiming.Some? then incomingTiming.value else currentTiming;
    if acquisitionTime && timing != "trigger" && timing != "auto" then
      Err("Do not know how to set acquisitionTime in case of timing=" + timing)
    else Ok(())
  }

  // ----- run status -----

  /** The run states `pollStatus` counts as not acquiring. */
  predicate IdleStatus(s: SimDefs.RunStatus) {
    s == SimDefs.RunStatus.Idle || s == SimDefs.RunStatus.Error || s == SimDefs.RunStatus.Stopped
  }

  predicate IsAcquiring(statuses: seq<SimDefs.RunStatus>) {
    exists i | 0 <= i < |statuses| :: !IdleStatus(statuses[i])
  }

  /** The loop of `pollStatus` that looks for a module that is not idle. */
  method AnyAcquiring(statuses: seq<SimDefs.RunStatus>) returns (acquiring: bool)
    ensures acquiring <==> IsAcquiring(statuses)
  {
    acquiring := false;
    var i := 0;
    while i < |statuses|
      invariant 0 <= i <= |statuses|
      invariant forall j | 0 <= j < i :: IdleStatus(statuses[j])
    {
      if !IdleStatus(statuses[i]) {
        acquiring := true;
        break;
      }
      i := i + 1;
    }
  }

  /** What `pollStatus` does with the modules' run status: an acquisition that is over is
      restarted when continuous mode was latched, and otherwise ends with the receiver stopped
      and the device ON; in every other case nothing happens. */
  function StatusStep(s: State, acquireForever: bool, statuses: seq<SimDefs.RunStatus>): (State, seq<Call>) {
    if s == Acquiring && !IsAcquiring(statuses) then
      if acquireForever then (s, [StartDetector]) else (On, [StopReceiver])
    else (s, [])
  }

  /** The state changes only from ACQUIRING to ON, and only when every module is idle and
      continuous mode is off; a restart keeps the device acquiring. */
  lemma StatusStepRule(s: State, acquireForever: bool, statuses: seq<SimDefs.RunStatus>)
    ensures StatusStep(s, acquireForever, statuses).0 != s <==>
      s == Acquiring && !acquireForever && !IsAcquiring(statuses)
    ensures StatusStep(s, acquireForever, statuses).0 != s ==> StatusStep(s, acquireForever, statuses).0 == On
    ensures StatusStep(s, acquireForever, statuses).1 == [StartDetector] <==>
      s == Acquiring && acquireForever && !IsAcquiring(statuses)
    ensures IsAcquiring(statuses) || s != Acquiring ==> StatusStep(s, acquireForever, statuses) == (s, [])
  {
  }

  /** The device state without the calls it made. */
  datatype Fields = Fields(
    state: State,
    status: string,
    numberOfModules: nat,
    positions: seq<int>,
    shmId: nat,
    connect: bool,
    isConfigured: bool,
    firstPoll: bool,
    acquireForever: bool,
    exposureTimer: nat)

  class SlsControl {
    const kind: Kind
    var state: State
    var status: string
    var numberOfModules: nat
    var positions: seq<int>
    var shmId: nat
    /** Whether `connect` is retried. */
    var connect: bool
    /** Whether the base configuration was loaded, so the modules can be polled. */
    var isConfigured: bool
    var firstPoll: bool
    /** `continuousMode` as it was when the acquisition started. */
    var acquireForever: bool
    /** The read-only exposureTimer of a JungfrauControl. */
    var exposureTimer: nat
    /** The calls made on the detector, oldest first. */
    var calls: seq<Call>

    function View(): Fields
      reads this
    {
      Fields(state, status, numberOfModules, positions, shmId, connect, isConfigured, firstPoll, acquireForever, exposureTimer)
    }

    /** No modules and no calls; the device starts UNKNOWN and not configured. */
    constructor(kind: Kind)
      ensures this.kind == kind && calls == []
      ensures View() == Fields(Unknown, "", 0, [], 0, false, false, true, false, 0)
    {
      this.kind := kind;
      state := Unknown;
      status := "";
      numberOfModules := 0;
      positions := [];
      shmId := 0;
      connect := false;
      isConfigured := false;
      firstPoll := true;
      acquireForever := false;
      exposureTimer := 0;
      calls := [];
    }

    /** `initialize`: one module per host name (none when the host names cannot be read, the
        positions then left as they were), positions 0 .. n-1, the shared memory id from the
        hash of the temporary directory; connecting starts only when the detector object could
        be created. */
    method Initialize(hosts: Option<seq<string>>, tmpDirHash: nat, created: bool)
      modifies this
      ensures hosts.Some? ==> (numberOfModules == |hosts.value| && |positions| == numberOfModules &&
        forall i | 0 <= i < |positions| :: positions[i] == i)
      ensures hosts.None? ==> numberOfModules == 0 && positions == old(positions)
      ensures shmId == ShmId(tmpDirHash) && shmId < 0x8000_0000
      ensures connect == (created || old(connect))
      ensures status == (if created then old(status) else "Failed to create sls::Detector")
      ensures calls == old(calls) && state == old(state) && isConfigured == old(isConfigured)
      ensures firstPoll == old(firstPoll) && acquireForever == old(acquireForever) && exposureTimer == old(exposureTimer)
    {
      if hosts.Some? {
        var n := |hosts.value|;
        var p := TrainBuffers.Resized(positions, n);
        for i := 0 to n
          invariant |p| == n && forall j | 0 <= j < i :: p[j] == j
        {
          p := p[i := i];
        }
        numberOfModules := n;
        positions := p;
      } else {
        numberOfModules := 0;
      }
      shmId := ShmId(tmpDirHash);
      if !created {
        status := "Failed to create sls::Detector";
        return;
      }
      connect := true;
    }

    /** `sendConfiguration(command, parameters, pos)`. */
    method SendCommand(name: string, params: string, pos: int)
      modifies this
      ensures calls == old(calls) + Issued(state, Command(name, params, pos))
      ensures View() == old(View())
    {
      if state == Unknown || state == Error {
        return;
      }
      if |name| == 0 {
        return;
      }
      calls := calls + [LoadParameters([CommandLine(Command(name, params, pos))])];
    }

    /** Several `sendConfiguration(command, parameters)` in a row. */
    method SendCommands(cs: seq<Command>)
      modifies this
      ensures calls == old(calls) + IssuedAll(state, cs)
      ensures View() == old(View())
    {
      for k := 0 to |cs|
        invariant View() == old(View())
        invariant calls == old(calls) + IssuedAll(state, cs[..k])
      {
        SendCommand(cs[k].name, cs[k].params, cs[k].pos);
        assert cs[..k + 1] == cs[..k] + [cs[k]];
        IssuedAllAppend(state, cs[..k], [cs[k]]);
      }
      assert cs[..|cs|] == cs;
    }

    /** `sendConfiguration(hash)`: nothing while offline, otherwise the commands of every key in
        order. */
    method SendHash(entries: seq<Entry>)
      modifies this
      ensures calls == old(calls) + IssuedAll(state, HashCommands(numberOfModules, entries))
      ensures View() == old(View())
    {
      if state == Unknown || state == Error {
        IssuedAllOffline(state, HashCommands(numberOfModules, entries));
        return;
      }
      SendEntries(entries);
    }

    /** The keys one after the other. */
    method SendEntries(entries: seq<Entry>)
      modifies this
      ensures calls == old(calls) + IssuedAll(state, HashCommands(numberOfModules, entries))
      ensures View() == old(View())
    {
      for k := 0 to |entries|
        invariant View() == old(View())
        invariant calls == old(calls) + IssuedAll(state, HashCommands(numberOfModules, entries[..k]))
      {
        ghost var done := IssuedAll(state, HashCommands(numberOfModules, entries[..k]));
        ghost var next := IssuedAll(state, EntryCommands(numberOfModules, entries[k]));
        SendEntry(entries[k]);
        IssuedAllHashSnoc(state, numberOfModules, entries, k);
        AppendAssoc(old(calls), done, next);
      }
      assert entries[..|entries|] == entries;
    }

    /** The commands of one key. */
    method SendEntry(e: Entry)
      modifies this
      ensures calls == old(calls) + IssuedAll(state, EntryCommands(numberOfModules, e))
      ensures View() == old(View())
    {
      if e.readOnly {
        return;
      }
      match e.value
      case Simple(t) =>
        SendCommand(e.alias, t, -1);
        assert [Command(e.alias, t, -1)][1..] == [];
      case Vector(vs) =>
        if |vs| == 0 {
        } else if |vs| == 1 {
          SendCommand(e.alias, vs[0], -1);
          assert [Command(e.alias, vs[0], -1)][1..] == [];
        } else if |vs| == numberOfModules {
          SendPerModule(e.alias, vs);
        }
      case Other =>
    }

    /** The loop over a vector with one value per module. */
    method SendPerModule(alias: string, values: seq<string>)
      modifies this
      ensures calls == old(calls) + IssuedAll(state, PerModule(alias, values))
      ensures View() == old(View())
    {
      for i := 0 to |values|
        invariant View() == old(View())
        invariant calls == old(calls) + IssuedAll(state, PerModule(alias, values)[..i])
      {
        SendCommand(alias, values[i], i);
        assert PerModule(alias, values)[..i + 1] == PerModule(alias, values)[..i] + [Command(alias, values[i], i)];
        IssuedAllAppend(state, PerModule(alias, values)[..i], [Command(alias, values[i], i)]);
      }
      assert PerModule(alias, values)[..|values|] == PerModule(alias, values);
    }

    /** `sendBaseConfiguration`: the size checks, then the base file loaded, the specialisation
        powered on and the device marked configured.  A failed check changes nothing. */
    method SendBaseConfiguration(cfg: BaseConfig) returns (r: Result<()>)
      modifies this
      ensures r == BaseCheck(cfg, numberOfModules)
      ensures r.Ok? ==> Consistent(cfg) && |cfg.hostnames| == numberOfModules
      ensures r.Ok? ==> calls == old(calls) + [LoadConfig(BaseFile(cfg))] + PowerOnCalls(kind, positions)
      ensures r.Err? ==> calls == old(calls)
      ensures View() == old(View()).(isConfigured := r.Ok? || old(isConfigured))
    {
      r := BaseCheck(cfg, numberOfModules);
      BaseCheckRule(cfg, numberOfModules);
      if r.Err? {
        return;
      }
      calls := calls + [LoadConfig(BaseFile(cfg))];
      PowerOn();
      isConfigured := true;
    }

    /** `powerOn` of the specialisation. */
    method PowerOn()
      modifies this
      ensures calls == old(calls) + PowerOnCalls(kind, positions)
      ensures View() == old(View())
    {
      match kind
      case Jungfrau =>
        calls := calls + [SetPowerChip(true, positions)];
        calls := calls + [WriteRegister(READOUT_TIMEOUT, READOUT_TIMEOUT_VALUE, positions)];
      case Gotthard =>
      case Gotthard2 =>
        calls := calls + [SetPowerChip(true, positions)];
    }

    /** `sendInitialConfiguration`: the settings directory, the binary file format, then the
        configuration. */
    method SendInitialConfiguration(tmpDir: string, entries: seq<Entry>)
      modifies this
      ensures calls == old(calls) + IssuedAll(state,
        [Command("settingspath", tmpDir, -1), Command("fformat", "binary", -1)] + HashCommands(numberOfModules, entries))
      ensures View() == old(View()).(status := "Configuration done")
    {
      var fixed := [Command("settingspath", tmpDir, -1), Command("fformat", "binary", -1)];
      SendCommands(fixed);
      SendHash(entries);
      IssuedAllAppend(state, fixed, HashCommands(numberOfModules, entries));
      status := "Configuration done";
    }

    /** `start`: ACQUIRING, continuous mode latched, receiver then detector started. */
    method Start(continuousMode: bool)
      modifies this
      ensures calls == old(calls) + [StartReceiver, StartDetector]
      ensures View() == old(View()).(state := Acquiring, status := "Acquisition started", acquireForever := continuousMode)
    {
      state := Acquiring;
      status := "Acquisition started";
      acquireForever := continuousMode;
      calls := calls + [StartReceiver, StartDetector];
    }

    /** `stop`: continuous mode dropped, detector then receiver stopped; the state is left to
        `pollStatus`. */
    method Stop()
      modifies this
      ensures calls == old(calls) + [StopDetector, StopReceiver]
      ensures View() == old(View()).(status := "Stopping acquisition", acquireForever := false)
    {
      acquireForever := false;
      status := "Stopping acquisition";
      calls := calls + [StopDetector, StopReceiver];
    }

    /** `pollStatus`.  `detectorFailure` is the message of an exception before the run status is
        known (a host that does not answer a ping, or the status query failing);
        `receiverFailure` the same for the receivers. */
    method PollStatus(detectorFailure: Option<string>, statuses: seq<SimDefs.RunStatus>, receiverFailure: Option<string>)
      modifies this
      ensures detectorFailure.Some? ==>
        && calls == old(calls) + [StopReceiver]
        && View() == old(View()).(state := Unknown, status := detectorFailure.value, isConfigured := false,
                                  firstPoll := true, connect := true)
      ensures detectorFailure.None? ==>
        var step := StatusStep(old(state), old(acquireForever), statuses);
        && calls == old(calls) + step.1
        && (step.0 != Error && receiverFailure.Some? ==> View() == old(View()).(state := Error, status := receiverFailure.value))
        && (step.0 == old(state) && (step.0 == Error || receiverFailure.None?) ==> View() == old(View()))
        && (step.0 != old(state) && receiverFailure.None? ==> View() == old(View()).(state := On, status := "Acquisition finished"))
    {
      if detectorFailure.Some? {
        calls := calls + [StopReceiver];
        state := Unknown;
        status := detectorFailure.value;
        isConfigured := false;
        firstPoll := true;
        connect := true;
        return;
      }
      var acquiring := AnyAcquiring(statuses);
      if state == Acquiring && !acquiring {
        if acquireForever {
          calls := calls + [StartDetector];
        } else {
          calls := calls + [StopReceiver];
          state := On;
          status := "Acquisition finished";
        }
      }
      if state != Error && receiverFailure.Some? {
        state := Error;
        status := receiverFailure.value;
      }
    }

    // ----- JungfrauControl -----

    /** `configureDetectorSpecific` of a JungfrauControl: with an exposure timeout, the timer
        is published and register 0x7F of every module rewritten; without one, nothing. */
    method ConfigureJungfrau(exposureTimeout: Option<nat>, readBack: seq<nat>)
      requires kind == Jungfrau
      modifies this
      ensures exposureTimeout.None? ==> calls == old(calls) && View() == old(View())
      ensures exposureTimeout.Some? ==>
        var timer := ExposureTimer(exposureTimeout.value);
        calls == old(calls) + TimerWrites(readBack, timer) && View() == old(View()).(exposureTimer := timer)
    {
      if exposureTimeout.Some? {
        var timer := ExposureTimer(exposureTimeout.value);
        exposureTimer := timer;
        var writes := WriteTimer(readBack, timer);
        calls := calls + writes;
      }
    }

    /** `pollDetectorSpecific` of a JungfrauControl: an over-temperature event on any module
        disables the device, once. */
    method PollTemperature(events: seq<int>) returns (tempEvent: bool)
      requires kind == Jungfrau
      modifies this
      ensures tempEvent <==> exists i | 0 <= i < |events| :: events[i] != 0
      ensures calls == old(calls)
      ensures tempEvent && old(state) != Disabled ==>
        View() == old(View()).(state := Disabled, status := "An over-temperature event occurred")
      ensures !(tempEvent && old(state) != Disabled) ==> View() == old(View())
    {
      tempEvent := false;
      var i := 0;
      while i < |events|
        invariant 0 <= i <= |events|
        invariant forall j | 0 <= j < i :: events[j] == 0
      {
        if events[i] != 0 {
          tempEvent := true;
          break;
        }
        i := i + 1;
      }
      if tempEvent && state != Disabled {
        state := Disabled;
        status := "An over-temperature event occurred";
      }
    }

    /** `resetTempEvent`: the event cleared on every module and the device back ON. */
    method ResetTempEvent()
      requires kind == Jungfrau
      modifies this
      ensures calls == old(calls) + [ResetTemperatureEvent(positions)]
      ensures View() == old(View()).(state := On, status := "Temperature event reset")
    {
      calls := calls + [ResetTemperatureEvent(positions)];
      state := On;
      status := "Temperature event reset";
    }

    // ----- Gotthard2Control -----

    /** `configureDetectorSpecific` of a Gotthard2Control: the single-photon settings, then the
        acquisition rate, then the read-out mode of every module but the first. */
    method ConfigureGotthard2(singlePhoton: Option<bool>, acquisitionRate: Option<string>, reverseSlaveReadOut: Option<bool>)
      requires kind == Gotthard2
      modifies this
      ensures calls == old(calls) + IssuedAll(state, Gotthard2Commands(singlePhoton, acquisitionRate, reverseSlaveReadOut, numberOfModules))
      ensures View() == old(View())
    {
      SendGroups(FixedGroups(singlePhoton, acquisitionRate), reverseSlaveReadOut);
    }

    /** Fixed commands, then the read-out mode when it is configured. */
    method SendGroups(fixed: seq<Command>, reverse: Option<bool>)
      modifies this
      ensures calls == old(calls) + IssuedAll(state, fixed + ReadOutGroup(reverse, numberOfModules))
      ensures View() == old(View())
    {
      ghost var first := IssuedAll(state, fixed);
      ghost var second := IssuedAll(state, ReadOutGroup(reverse, numberOfModules));
      SendCommands(fixed);
      if reverse.Some? {
        SendReadOut(reverse.value);
      } else {
        assert second == [];
      }
      IssuedAllAppend(state, fixed, ReadOutGroup(reverse, numberOfModules));
      AppendAssoc(old(calls), first, second);
    }

    /** The loop over modules 1 .. n-1 that sets their read-out mode. */
    method SendReadOut(reverse: bool)
      modifies this
      ensures calls == old(calls) + IssuedAll(state, ReadOutCommands(reverse, numberOfModules))
      ensures View() == old(View())
    {
      ghost var st := state;
      var bit := ReadOutBit(reverse);
      var i := 1;
      while i < numberOfModules
        invariant 1 <= i && (i == 1 || i <= numberOfModules)
        invariant View() == old(View()) && state == st
        invariant calls == old(calls) + IssuedAll(st, ReadOutCommands(reverse, i))
      {
        ghost var before := calls;
        SendCommand(NatToString(i) + ":" + bit, READ_OUT_BIT, -1);
        assert calls == before + IssuedAll(st, [ReadOutCommand(reverse, i)]);
        IssuedAllAppend(st, ReadOutCommands(reverse, i), [ReadOutCommand(reverse, i)]);
        i := i + 1;
      }
    }

    /** `powerOff` of a Gotthard2Control: high voltage off, when there is a detector with
        modules. */
    method PowerOffGotthard2(detectorExists: bool, detectorEmpty: bool)
      requires kind == Gotthard2
      modifies this
      ensures calls == old(calls) + (if detectorExists && !detectorEmpty then [SetHighVoltage(0, positions)] else [])
      ensures View() == old(View())
    {
      if detectorExists && !detectorEmpty {
        calls := calls + [SetHighVoltage(0, positions)];
      }
    }
  }

  // ----- the Gotthard2Control command sequences -----

  function SinglePhotonCommands(singlePhoton: bool): seq<Command> {
    if singlePhoton then [Command("dac", "vref_rstore 0", -1), Command("cdsgain", "1", -1)]
    else [Command("dac", "vref_rstore 150", -1), Command("cdsgain", "0", -1)]
  }

  function RateCommands(rate: string): seq<Command> {
    if rate == "1.1" then
      [Command("clkdiv", "2 20", -1), Command("clkdiv", "3 40", -1), Command("clkdiv", "4 20", -1),
       Command("reg", "0x120 0x00000000", -1), Command("clkdiv", "0 16", -1), Command("clkdiv", "1 16", -1),
       Command("clkphase", "1 270 deg", -1)]
    else if rate == "2.25" then
      [Command("clkdiv", "2 10", -1), Command("clkdiv", "3 20", -1), Command("clkdiv", "4 10", -1),
       Command("reg", "0x120 0x00000000", -1), Command("clkdiv", "0 16", -1), Command("clkdiv", "1 16", -1),
       Command("clkphase", "1 240 deg", -1)]
    else
      [Command("clkdiv", "2 5", -1), Command("clkdiv", "3 10", -1), Command("clkdiv", "4 5", -1),
       Command("readoutspeed", "108", -1)]
  }

  /** "<i>:clearbit 0x20 20" (reverse read-out) or "<i>:setbit 0x20 20": the command word
      carries the module, the position stays the default. */
  function ReadOutCommand(reverse: bool, i: nat): Command {
    Command(NatToString(i) + ":" + ReadOutBit(reverse), READ_OUT_BIT, -1)
  }

  function ReadOutBit(reverse: bool): string {
    if reverse then "clearbit" else "setbit"
  }

  /** The read-out commands for modules 1 .. n-1. */
  function ReadOutCommands(reverse: bool, n: nat): (r: seq<Command>)
    ensures |r| == if n == 0 then 0 else n - 1
  {
    if n <= 1 then [] else ReadOutCommands(reverse, n - 1) + [ReadOutCommand(reverse, n - 1)]
  }

  /** The single-photon and the rate groups, each when its key is present. */
  function FixedGroups(singlePhoton: Option<bool>, rate: Option<string>): seq<Command> {
    (if singlePhoton.Some? then SinglePhotonCommands(singlePhoton.value) else [])
    + (if rate.Some? then RateCommands(rate.value) else [])
  }

  function ReadOutGroup(reverse: Option<bool>, n: nat): seq<Command> {
    if reverse.Some? then ReadOutCommands(reverse.value, n) else []
  }

  function Gotthard2Commands(singlePhoton: Option<bool>, rate: Option<string>, reverse: Option<bool>, n: nat): seq<Command> {
    FixedGroups(singlePhoton, rate) + ReadOutGroup(reverse, n)
  }

  /** The line of a read-out command is three words, and the simulated detector reads the
      first as module i and "clearbit" or "setbit". */
  lemma ReadOutLine(reverse: bool, i: nat)
    requires IsInt32(i)
    ensures var words := Split(CommandLine(ReadOutCommand(reverse, i)), IsSpace);
      && CommandLine(ReadOutCommand(reverse, i)) == CommandLine(Command(ReadOutBit(reverse), READ_OUT_BIT, i))
      && words == [IntToString(i) + ":" + ReadOutBit(reverse)] + Split(READ_OUT_BIT, IsSpace)
      && DetectorCommands.SplitModulePrefix(words[0], -1) == Ok(DetectorCommands.Addressed(i, ReadOutBit(reverse)))
  {
    ReadOutBitPlain(reverse);
    AddressedLine(ReadOutBit(reverse), READ_OUT_BIT, i);
  }

  /** A command word printed after a module prefix is the same line as the command sent to
      that module. */
  lemma AddressedLine(word: string, params: string, i: nat)
    requires word != [] && DetectorCommands.PlainWord(word) && IsInt32(i) && params != []
    ensures var words := Split(CommandLine(Command(NatToString(i) + ":" + word, params, -1)), IsSpace);
      && CommandLine(Command(NatToString(i) + ":" + word, params, -1)) == CommandLine(Command(word, params, i))
      && words == [IntToString(i) + ":" + word] + Split(params, IsSpace)
      && DetectorCommands.SplitModulePrefix(words[0], -1) == Ok(DetectorCommands.Addressed(i, word))
  {
    CommandLineWords(Command(word, params, i));
  }

  lemma ReadOutBitPlain(reverse: bool)
    ensures ReadOutBit(reverse) != [] && DetectorCommands.PlainWord(ReadOutBit(reverse))
  {
    DetectorCommands.FindFirstIsFirst(ReadOutBit(reverse), ':');
  }

  /** The register and bit the read-out commands name. */
  const READ_OUT_BIT: string := "0x20 20"

  lemma ReadOutBitWords()
    ensures Split(READ_OUT_BIT, IsSpace) == ["0x20", "20"]
  {
    assert READ_OUT_BIT == "0x20" + [' '] + "20";
    assert NoneOf("0x20", IsSpace);
    SplitAppend("0x20", "20", ' ', IsSpace);
    SplitNoSeparator("20", IsSpace);
  }

  /** Command k of the read-out group addresses module k + 1 through its command word, so
      module 0, the master, is never touched. */
  lemma {:induction false} ReadOutCommandsAddress(reverse: bool, n: nat, k: nat)
    requires k + 1 < n
    ensures ReadOutCommands(reverse, n)[k] == ReadOutCommand(reverse, k + 1)
    decreases n
  {
    if k + 2 < n {
      ReadOutCommandsAddress(reverse, n - 1, k);
    }
  }

  /** Every group is sent only when its key is present, in the order single photon, rate,
      read-out mode; a rate other than 1.1 or 2.25 MHz restores the 4.5 MHz clocks. */
  lemma Gotthard2Groups(singlePhoton: Option<bool>, rate: Option<string>, reverse: Option<bool>, n: nat)
    ensures singlePhoton.None? && rate.None? && reverse.None? ==> Gotthard2Commands(singlePhoton, rate, reverse, n) == []
    ensures |Gotthard2Commands(singlePhoton, rate, reverse, n)| ==
      (if singlePhoton.Some? then 2 else 0) +
      (if rate.Some? then (if rate.value in {"1.1", "2.25"} then 7 else 4) else 0) +
      (if reverse.Some? && n > 0 then n - 1 else 0)
    ensures singlePhoton.Some? ==> Gotthard2Commands(singlePhoton, rate, reverse, n)[..2] == SinglePhotonCommands(singlePhoton.value)
    ensures rate.Some? && rate.value !in {"1.1", "2.25"} ==>
      RateCommands(rate.value)[3] == Command("readoutspeed", "108", -1)
  {
  }
}
