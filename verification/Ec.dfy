/** Reading registers of an ACPI embedded controller (ec.c): the host and the controller take
    turns over a status port with the flags IBF and OBF and a data port. */
module EmbeddedController {
  import opened Wrappers

  type Byte = n: int | 0 <= n < 256

  type Memory = m: seq<Byte> | |m| == 256 witness seq(256, _ => 0)

  const DATA_PORT := 0x62
  const CMD_PORT := 0x66
  const CMD_READ: Byte := 0x80

  /** What the controller is busy with: it has taken the read command, or also the address. */
  datatype Work = Idle | Await | Fetch(addr: Byte)

  /** ibf: the host's last byte, input, has not been taken yet; command tells which port it came
      through. obf: output has not been read by the host yet. */
  datatype Ec = Ec(mem: Memory, ibf: bool, command: bool, input: Byte, obf: bool, output: Byte, work: Work)

  /** The controller's own steps, which may come at any time; one that cannot happen does nothing. It
      takes a byte of the command port 0x66 for a command, and 0x80 for the command to read. */
  datatype EcStep = Take | Finish

  function Act(ec: Ec, s: EcStep): Ec {
    match s
    case Take =>
      if !ec.ibf then ec
      else if ec.command then ec.(ibf := false, work := if ec.input == 0x80 then Await else Idle)
      else ec.(ibf := false, work := if ec.work == Await then Fetch(ec.input) else Idle)
    case Finish =>
      if ec.work.Fetch? && !ec.obf then ec.(obf := true, output := ec.mem[ec.work.addr], work := Idle)
      else ec
  }

  function Acts(ec: Ec, steps: seq<EcStep>): Ec
    decreases |steps|
  {
    if steps == [] then ec else Acts(Act(ec, steps[0]), steps[1..])
  }

  /** The surroundings of one port access: whether 100 ms have passed by then (which only the waits
      look at), what the controller does before it, whether the access gets through to the port,
      and the status bits other than IBF and OBF. */
  datatype Turn = Turn(expired: bool, steps: seq<EcStep>, ok: bool, others: Byte)

  /** A write that got through, and whether it overwrote a byte the controller had not taken. */
  datatype HostWrite = HostWrite(port: nat, value: Byte, overrun: bool)

  /** The controller, the turns to come (none left: time has run out and no access gets through)
      and the host's writes. */
  datatype World = World(ec: Ec, script: seq<Turn>, log: seq<HostWrite>)

  function Status(ec: Ec, others: Byte): Byte {
    others - others % 4 + (if ec.obf then 1 else 0) + if ec.ibf then 2 else 0
  }

  predicate Obf(status: Byte) { status % 2 == 1 }

  predicate Ibf(status: Byte) { status / 2 % 2 == 1 }

  predicate Expired(w: World) {
    w.script == [] || w.script[0].expired
  }

  /** The controller acts until the next access of the host. */
  function Pass(w: World): World {
    if w.script == [] then w
    else w.(ec := Acts(w.ec, w.script[0].steps), script := w.script[1..])
  }

  predicate Reaches(w: World) {
    w.script != [] && w.script[0].ok
  }

  function ReadStatus(w: World): (World, Option<Byte>) {
    (Pass(w), if Reaches(w) then Some(Status(Pass(w).ec, w.script[0].others)) else None)
  }

  function ReadData(w: World): (World, Option<Byte>) {
    var n := Pass(w);
    if Reaches(w) then (n.(ec := n.ec.(obf := false)), Some(n.ec.output)) else (n, None)
  }

  function WritePort(w: World, port: nat, v: Byte): (World, bool) {
    var n := Pass(w);
    if !Reaches(w) then (n, false)
    else
      (n.(ec := n.ec.(ibf := true, command := port == 0x66, input := v),
          log := n.log + [HostWrite(port, v, n.ec.ibf)]), true)
  }

  function WaitIbf(w: World): (World, bool)
    decreases |w.script|
  {
    if Expired(w) then (Pass(w), false)
    else
      var (n, status) := ReadStatus(w);
      if status.None? then (n, false)
      else if !Ibf(status.value) then (n, true)
      else WaitIbf(n)
  }

  function WaitObf(w: World): (World, bool)
    decreases |w.script|
  {
    if Expired(w) then (Pass(w), false)
    else
      var (n, status) := ReadStatus(w);
      if status.None? then (n, false)
      else if Obf(status.value) then (n, true)
      else WaitObf(n)
  }

  /** A wait for IBF and then a write. */
  function Put(w: World, port: nat, v: Byte): (World, bool) {
    var (n, ready) := WaitIbf(w);
    if !ready then (n, false) else WritePort(n, port, v)
  }

  /** A wait for OBF and then a read. */
  function Get(w: World): (World, Option<Byte>) {
    var (n, ready) := WaitObf(w);
    if !ready then (n, None) else ReadData(n)
  }

  function ReadReg(w: World, reg: Byte): (World, Option<Byte>) {
    var (w1, sent) := Put(w, CMD_PORT, CMD_READ);
    if !sent then (w1, None)
    else
      var (w2, addressed) := Put(w1, DATA_PORT, reg);
      if !addressed then (w2, None) else Get(w2)
  }

  function ReadWord(w: World, reg: Byte): (World, Option<nat>) {
    var (w1, low) := ReadReg(w, reg);
    if low.None? then (w1, None)
    else
      var (w2, high) := ReadReg(w1, (reg + 1) % 256);
      (w2, if high.None? then None else Some(high.value * 256 + low.value))
  }

  /** The host side, driving a controller through its ports. */
  class Driver {
    var ec: Ec
    var script: seq<Turn>
    ghost var log: seq<HostWrite>

    ghost function View(): World
      reads this
    {
      World(ec, script, log)
    }

    method NextTurn() returns (t: Turn)
      requires script != []
      modifies this
      ensures t == old(script[0]) && View() == Pass(old(View()))
    {
      t := script[0];
      ec, script := Acts(ec, t.steps), script[1..];
    }

    /** ec_read_port */
    method ReadPort(port: nat) returns (v: Option<Byte>)
      requires port == DATA_PORT || port == CMD_PORT
      modifies this
      ensures (View(), v) == if port == CMD_PORT then ReadStatus(old(View())) else ReadData(old(View()))
    {
      if script == [] {
        return None;
      }
      var t := NextTurn();
      if !t.ok {
        return None;
      }
      if port == CMD_PORT {
        return Some(Status(ec, t.others));
      }
      v := Some(ec.output);
      ec := ec.(obf := false);
    }

    /** ec_write_port */
    method WriteByte(port: nat, v: Byte) returns (ok: bool)
      requires port == DATA_PORT || port == CMD_PORT
      modifies this
      ensures (View(), ok) == WritePort(old(View()), port, v)
    {
      if script == [] {
        return false;
      }
      var t := NextTurn();
      if !t.ok {
        return false;
      }
      log := log + [HostWrite(port, v, ec.ibf)];
      ec := ec.(ibf := true, command := port == CMD_PORT, input := v);
      ok := true;
    }

    method TimeLeft() returns (left: bool)
      modifies this
      ensures left == !Expired(old(View()))
      ensures View() == if left then old(View()) else Pass(old(View()))
    {
      if script == [] {
        return false;
      }
      left := !script[0].expired;
      if !left {
        var _ := NextTurn();
      }
    }

    /** ec_wait_ibf */
    method AwaitIbf() returns (ready: bool)
      modifies this
      ensures (View(), ready) == WaitIbf(old(View()))
    {
      var left := TimeLeft();
      while left
        invariant left ==> !Expired(View()) && WaitIbf(View()) == WaitIbf(old(View()))
        invariant !left ==> (View(), false) == WaitIbf(old(View()))
        decreases left, |script|
      {
        var status := ReadPort(CMD_PORT);
        if status.None? { return false; }
        if !Ibf(status.value) { return true; }
        left := TimeLeft();
      }
      ready := false;
    }

    /** ec_wait_obf */
    method AwaitObf() returns (ready: bool)
      modifies this
      ensures (View(), ready) == WaitObf(old(View()))
    {
      var left := TimeLeft();
      while left
        invariant left ==> !Expired(View()) && WaitObf(View()) == WaitObf(old(View()))
        invariant !left ==> (View(), false) == WaitObf(old(View()))
        decreases left, |script|
      {
        var status := ReadPort(CMD_PORT);
        if status.None? { return false; }
        if Obf(status.value) { return true; }
        left := TimeLeft();
      }
      ready := false;
    }

    /** ec_read_reg */
    method ReadRegister(reg: Byte) returns (value: Option<Byte>)
      modifies this
      ensures (View(), value) == ReadReg(old(View()), reg)
    {
      hide WaitIbf, WaitObf, WritePort, ReadData, ReadStatus;
      var ok := AwaitIbf();
      if !ok { return None; }
      ok := WriteByte(CMD_PORT, CMD_READ);
      if !ok { return None; }
      ok := AwaitIbf();
      if !ok { return None; }
      ok := WriteByte(DATA_PORT, reg);
      if !ok { return None; }
      ok := AwaitObf();
      if !ok { return None; }
      value := ReadPort(DATA_PORT);
    }

    /** ec_read_word */
    method ReadTwo(reg: Byte) returns (value: Option<nat>)
      modifies this
      ensures (View(), value) == ReadWord(old(View()), reg)
    {
      hide ReadReg;
      var low := ReadRegister(reg);
      if low.None? { return None; }
      var high := ReadRegister((reg + 1) % 256);
      if high.None? { return None; }
      value := Some(high.value * 256 + low.value);
    }
  }
}
