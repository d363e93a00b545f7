/** What the two generations of control devices share: their states, a configuration key as
    they walk it, the calls they make on the detector library, the size checks and text of the
    base configuration file, and the Jungfrau exposure-timer register arithmetic. */
module ControlConfig {
  import opened Wrappers
  import opened Text

  /** The states a control device moves through. */
  datatype State = Unknown | Init | On | Error | Acquiring | Disabled

  /** A flattened configuration value: a simple value in its text form, a vector of values
      each in text form, or something that is neither. */
  datatype Value = Simple(text: string) | Vector(items: seq<string>) | Other

  /** One key of a flattened configuration with the alias and access mode of its schema. */
  datatype Entry = Entry(key: string, alias: string, readOnly: bool, value: Value)

  /** The calls a control device makes on the detector library: `sls::Detector` for the
      current generation, `slsDetectorUsers` for the legacy one. */
  datatype Call =
    | LoadParameters(lines: seq<string>)
    | LoadConfig(text: string)
    | PutCommand(args: seq<string>, pos: int)
    | GetCommand(args: seq<string>, pos: int)
    | ReadConfigurationFile(text: string)
    | SetPowerChip(on: bool, positions: seq<int>)
    | WriteRegister(addr: nat, value: nat, positions: seq<int>)
    | SetHighVoltage(volts: nat, positions: seq<int>)
    | ResetTemperatureEvent(positions: seq<int>)
    | StartReceiver
    | StartDetector
    | StopReceiver
    | StopDetector
    | StopMeasurement

  /** The specialisation of a control device. */
  datatype Kind = Jungfrau | Gotthard | Gotthard2

  /** The arguments of a control device's `sendConfiguration(command, parameters, pos)`; `pos`
      is -1 unless given. */
  datatype Command = Command(name: string, params: string, pos: int)

  /** One command per module for a vector with one value per module. */
  function PerModule(alias: string, values: seq<string>): (r: seq<Command>)
    ensures |r| == |values|
  {
    seq(|values|, i requires 0 <= i < |values| => Command(alias, values[i], i))
  }

  // ----- size checks of the base configuration -----

  /** "<name> has wrong size: <size>!= <n>" */
  function WrongSize(name: string, size: nat, n: nat): string {
    name + " has wrong size: " + NatToString(size) + "!= " + NatToString(n)
  }

  /** The checks of `sendBaseConfiguration`, one vector after the other. */
  function SizeCheck(names: seq<string>, sizes: seq<nat>, n: nat): Result<()>
    requires |names| == |sizes|
    decreases |names|
  {
    if names == [] then Ok(())
    else if sizes[0] != n then Err(WrongSize(names[0], sizes[0], n))
    else SizeCheck(names[1..], sizes[1..], n)
  }

  /** The size test passes exactly when every vector has one entry per module; otherwise it reports
      the first vector that does not. */
  lemma {:induction false} SizeCheckRule(names: seq<string>, sizes: seq<nat>, n: nat)
    requires |names| == |sizes|
    ensures SizeCheck(names, sizes, n).Ok? <==> forall i | 0 <= i < |sizes| :: sizes[i] == n
    ensures SizeCheck(names, sizes, n).Err? ==>
      exists j | 0 <= j < |sizes| ::
        && sizes[j] != n && (forall i | 0 <= i < j :: sizes[i] == n)
        && SizeCheck(names, sizes, n).message == WrongSize(names[j], sizes[j], n)
    decreases |names|
  {
    if names != [] && sizes[0] == n {
      SizeCheckRule(names[1..], sizes[1..], n);
      var r := SizeCheck(names, sizes, n);
      assert r == SizeCheck(names[1..], sizes[1..], n);
      if r.Ok? {
        assert forall i | 0 <= i < |sizes| :: sizes[i] == n by {
          forall i | 0 <= i < |sizes|
            ensures sizes[i] == n
          {
            if i > 0 {
              assert sizes[i] == sizes[1..][i - 1];
            }
          }
        }
      } else {
        var j :| 0 <= j < |sizes[1..]| && sizes[1..][j] != n && (forall i | 0 <= i < j :: sizes[1..][i] == n)
          && r.message == WrongSize(names[1..][j], sizes[1..][j], n);
        assert sizes[j + 1] != n;
        assert forall i | 0 <= i < j + 1 :: sizes[i] == n by {
          forall i | 0 <= i < j + 1
            ensures sizes[i] == n
          {
            if i > 0 {
              assert sizes[i] == sizes[1..][i - 1];
            }
          }
        }
        assert r.message == WrongSize(names[j + 1], sizes[j + 1], n);
        assert sizes[1] == sizes[1..][0];
      }
    }
  }

  // ----- the base configuration file -----

  /** "<i>:<name> <value>" */
  function ModuleLine(i: nat, name: string, value: string): string {
    NatToString(i) + ":" + name + " " + value
  }

  /** Port numbers as `operator<<` prints them. */
  function Printed(ports: seq<nat>): (r: seq<string>)
    ensures |r| == |ports|
  {
    seq(|ports|, i requires 0 <= i < |ports| => NatToString(ports[i]))
  }

  /** Every column holds a value for each of the first n modules. */
  predicate Columns(n: nat, names: seq<string>, columns: seq<seq<string>>) {
    |names| == |columns| && forall j | 0 <= j < |columns| :: n <= |columns[j]|
  }

  /** The block of module i: one line per parameter, in the order of `names`. */
  function ModuleBlock(i: nat, names: seq<string>, columns: seq<seq<string>>): (r: seq<string>)
    requires Columns(i + 1, names, columns)
    ensures |r| == |names|
  {
    seq(|names|, j requires 0 <= j < |names| => ModuleLine(i, names[j], columns[j][i]))
  }

  /** The blocks of modules 0 .. n-1 one after the other. */
  function ModuleBlocks(n: nat, names: seq<string>, columns: seq<seq<string>>): (r: seq<string>)
    requires Columns(n, names, columns)
    ensures |r| == n * |names|
  {
    if n == 0 then []
    else
      var r := ModuleBlocks(n - 1, names, columns) + ModuleBlock(n - 1, names, columns);
      assert (n - 1) * |names| + |names| == n * |names|;
      r
  }

  /** Line i * |names| + j of the blocks is parameter j of module i. */
  lemma {:induction false} ModuleBlocksAt(n: nat, names: seq<string>, columns: seq<seq<string>>, i: nat, j: nat)
    requires Columns(n, names, columns) && i < n && j < |names|
    ensures i * |names| + j < n * |names|
    ensures ModuleBlocks(n, names, columns)[i * |names| + j] == ModuleLine(i, names[j], columns[j][i])
  {
    var k := |names|;
    assert (n - 1) * k + k == n * k;
    if i == n - 1 {
      assert ModuleBlocks(n, names, columns)[i * k + j] == ModuleBlock(n - 1, names, columns)[j];
    } else {
      assert i * k + j < (i + 1) * k <= (n - 1) * k by {
        assert (i + 1) * k == i * k + k;
        assert (n - 1) * k == (i + 1) * k + (n - 2 - i) * k;
      }
      ModuleBlocksAt(n - 1, names, columns, i, j);
    }
  }

  /** The lines of the base file: the hosts each followed by '+', then the block of every
      module. */
  function BaseLines(hosts: seq<string>, names: seq<string>, columns: seq<seq<string>>): (r: seq<string>)
    requires Columns(|hosts|, names, columns)
    ensures |r| == 1 + |hosts| * |names|
  {
    ["hostname " + Terminated(hosts, "+")] + ModuleBlocks(|hosts|, names, columns)
  }

  /** The base file: every line ended by `std::endl`. */
  function BaseText(hosts: seq<string>, names: seq<string>, columns: seq<seq<string>>): string
    requires Columns(|hosts|, names, columns)
  {
    Terminated(BaseLines(hosts, names, columns), "\n")
  }

  /** The file starts with the host list; after it, line 1 + i * |names| + j sets parameter j of
      module i, so every module gets every parameter and in the order given. */
  lemma BaseLinesAt(hosts: seq<string>, names: seq<string>, columns: seq<seq<string>>, i: nat, j: nat)
    requires Columns(|hosts|, names, columns) && i < |hosts| && j < |names|
    ensures BaseLines(hosts, names, columns)[0] == "hostname " + Terminated(hosts, "+")
    ensures 1 + i * |names| + j < |BaseLines(hosts, names, columns)|
    ensures BaseLines(hosts, names, columns)[1 + i * |names| + j] == ModuleLine(i, names[j], columns[j][i])
  {
    ModuleBlocksAt(|hosts|, names, columns, i, j);
  }

  // ----- the Jungfrau exposure timer -----

  /** The ASIC control register and the read-out timeout register with the value `powerOn`
      writes to it. */
  const ASIC_CTRL: nat := 0x7F
  const READOUT_TIMEOUT: nat := 0x4d
  const READOUT_TIMEOUT_VALUE: nat := 0x108000

  /** The exposure timer for an exposure timeout in nanoseconds: the timeout over 25 ns, less
      one, stored in an unsigned short. */
  function ExposureTimer(timeout: nat): nat {
    (timeout / 25 - 1) % 0x1_0000
  }

  /** For the timeouts the schema allows (25 to 1000000 ns) the timer is the number of 25 ns
      steps less one, 0 to 39999, with no wrap-around; below 25 ns it wraps to 0xFFFF. */
  lemma ExposureTimerRange(timeout: nat)
    ensures 25 <= timeout <= 1000000 ==>
      var t := ExposureTimer(timeout);
      && t < 40000
      && (t + 1) * 25 <= timeout < (t + 2) * 25
    ensures timeout < 25 ==> ExposureTimer(timeout) == 0xFFFF
  {
  }

  /** `(old & 0xFFFF) | (timer << 16)`: the low 16 bits of the register with the timer above. */
  function AsicControl(register: nat, timer: nat): nat {
    register % 0x1_0000 + timer * 0x1_0000
  }

  /** The new register value is a 32-bit value whose low half is the old one's and whose high
      half is the timer; rewriting with another timer forgets the first. */
  lemma AsicControlBits(register: nat, timer: nat, timer2: nat)
    requires timer < 0x1_0000
    ensures AsicControl(register, timer) < 0x1_0000_0000
    ensures AsicControl(register, timer) % 0x1_0000 == register % 0x1_0000
    ensures AsicControl(register, timer) / 0x1_0000 == timer
    ensures AsicControl(AsicControl(register, timer), timer2) == AsicControl(register, timer2)
  {
  }

  /** The writes of `configureDetectorSpecific`: register i of the read-back, for module i. */
  function TimerWrites(readBack: seq<nat>, timer: nat): (r: seq<Call>)
    ensures |r| == |readBack|
  {
    seq(|readBack|, i requires 0 <= i < |readBack| => WriteRegister(ASIC_CTRL, AsicControl(readBack[i], timer), [i]))
  }

  /** Write i goes to module i alone, to the ASIC control register, keeps the low 16 bits of
      what module i read back and puts the timer above them. */
  lemma TimerWritesRule(readBack: seq<nat>, timer: nat, i: nat)
    requires i < |readBack| && timer < 0x1_0000
    ensures TimerWrites(readBack, timer)[i].WriteRegister?
    ensures TimerWrites(readBack, timer)[i].addr == ASIC_CTRL
    ensures TimerWrites(readBack, timer)[i].positions == [i]
    ensures TimerWrites(readBack, timer)[i].value % 0x1_0000 == readBack[i] % 0x1_0000
    ensures TimerWrites(readBack, timer)[i].value / 0x1_0000 == timer
  {
    AsicControlBits(readBack[i], timer, timer);
  }

  /** Rewrites register 0x7F of every module in read-back order (`configureDetectorSpecific` of
      either JungfrauControl); the calls made are returned. */
  method WriteTimer(readBack: seq<nat>, timer: nat) returns (calls: seq<Call>)
    ensures calls == TimerWrites(readBack, timer)
  {
    calls := [];
    var i := 0;
    while i < |readBack|
      invariant 0 <= i <= |readBack|
      invariant calls == TimerWrites(readBack[..i], timer)
    {
      calls := calls + [WriteRegister(ASIC_CTRL, AsicControl(readBack[i], timer), [i])];
      i := i + 1;
    }
    assert readBack[..i] == readBack;
  }

  /** `powerOn` of a Jungfrau control: the chips on, then the read-out timeout on all modules. */
  function JungfrauPowerOn(positions: seq<int>): seq<Call> {
    [SetPowerChip(true, positions), WriteRegister(READOUT_TIMEOUT, READOUT_TIMEOUT_VALUE, positions)]
  }

  /** `powerOn` of each specialisation, the same in both generations; GotthardControl keeps
      the empty default. */
  function PowerOnCalls(k: Kind, positions: seq<int>): seq<Call> {
    match k
    case Jungfrau => JungfrauPowerOn(positions)
    case Gotthard => []
    case Gotthard2 => [SetPowerChip(true, positions)]
  }
}
