/** The AMD SMU mailbox protocol (amd_smu.c) over the SMN index/data pair (amd_zen.c).

    Two parties share the MSG, RSP and ARG registers of two mailboxes. The host runs the code
    of amd_smu.c; the firmware may finish a pending command before any host access. Which
    accesses fail and when the firmware acts are two scripts, so a statement for all
    scripts is a statement for all interleavings and all failures. */
module Smu {
  import opened Wrappers

  /** A 32-bit register value. */
  type Word = x: nat | x < 0x1_0000_0000

  const ARG_COUNT := 6

  type Args = s: seq<Word> | |s| == ARG_COUNT witness [0, 0, 0, 0, 0, 0]

  // ---- The firmware's side ------------------------------------------------------

  /** What the firmware stores when it finishes a command. */
  datatype Reply = Reply(rsp: Word, args: Args)

  datatype Event =
    | Issued(cmd: Word, args: Args, busy: bool)        // MSG written; busy: a command was pending
    | Answered(cmd: Word, args: Args, reply: Reply)    // the arguments seen, the answer given

  datatype Mailbox = Mailbox(msg: nat, rsp: nat, arg: nat)

  datatype Which = Mp1 | Rsmu

  /** The registers of one mailbox, the command the firmware works on, and the history. */
  datatype Box = Box(rsp: Word, args: Args, pending: Option<Word>, log: seq<Event>)
  {
    function Issue(cmd: Word): Box {
      Box(rsp, args, Some(cmd), log + [Issued(cmd, args, pending.Some?)])
    }

    /** The firmware writes RSP and ARG once per command and touches nothing while idle. */
    function Finish(reply: Reply): Box {
      if pending.None? then this
      else Box(reply.rsp, reply.args, None, log + [Answered(pending.value, args, reply)])
    }
  }

  datatype Config = Config(mp1: Mailbox, rsmu: Mailbox, cmdGetVersion: Word, cmdGetDramBase: Word,
                           cmdTransferToDram: Word, cmdTransferArg0: Word)
  {
    function At(b: Which): Mailbox {
      if b == Mp1 then mp1 else rsmu
    }
  }

  datatype Register = Msg | Rsp | Arg(i: nat)

  function RegisterAt(m: Mailbox, addr: nat): (r: Option<Register>)
    ensures r.Some? && r.value.Arg? ==> r.value.i < ARG_COUNT
  {
    if addr == m.msg then Some(Msg)
    else if addr == m.rsp then Some(Rsp)
    else if m.arg <= addr < m.arg + 4 * ARG_COUNT && (addr - m.arg) % 4 == 0 then Some(Arg((addr - m.arg) / 4))
    else None
  }

  predicate Owns(m: Mailbox, addr: nat) {
    addr == m.msg || addr == m.rsp || m.arg <= addr < m.arg + 4 * ARG_COUNT
  }

  predicate Distinct(m: Mailbox) {
    m.msg != m.rsp && !(m.arg <= m.msg < m.arg + 4 * ARG_COUNT) && !(m.arg <= m.rsp < m.arg + 4 * ARG_COUNT)
  }

  /** No register of one mailbox is a register of the other, or twice a register of its own. */
  predicate Separated(c: Config) {
    && Distinct(c.mp1) && Distinct(c.rsmu)
    && !Owns(c.mp1, c.rsmu.msg) && !Owns(c.mp1, c.rsmu.rsp)
    && !Owns(c.rsmu, c.mp1.msg) && !Owns(c.rsmu, c.mp1.rsp)
    && (c.mp1.arg + 4 * ARG_COUNT <= c.rsmu.arg || c.rsmu.arg + 4 * ARG_COUNT <= c.mp1.arg)
  }

  /** The two register layouts of the smu_configs table. */
  const DESKTOP_MP1 := Mailbox(0x3B10530, 0x3B1057C, 0x3B109C4)
  const DESKTOP_RSMU := Mailbox(0x3B10524, 0x3B10570, 0x3B10A40)
  const APU_MP1 := Mailbox(0x3B10528, 0x3B10564, 0x3B10998)
  const APU_RSMU := Mailbox(0x3B10A20, 0x3B10A80, 0x3B10A88)

  const DESKTOP := Config(DESKTOP_MP1, DESKTOP_RSMU, 0x08, 0x06, 0x05, 0)
  const RENOIR := Config(APU_MP1, APU_RSMU, 0x06, 0x66, 0x65, 3)
  const APU := Config(APU_MP1, APU_RSMU, 0x06, 0x66, 0x65, 0)

  /** The table's entries: CPUID family and model, and the mailbox configuration. */
  const CONFIGS: seq<(nat, nat, Config)> := [
    (0x17, 0x71, DESKTOP),  // Matisse
    (0x17, 0x60, RENOIR),
    (0x17, 0x31, DESKTOP),  // CastlePeak
    (0x19, 0x21, DESKTOP),  // Vermeer
    (0x19, 0x20, DESKTOP),  // Vermeer
    (0x19, 0x50, APU),      // Cezanne
    (0x19, 0x01, DESKTOP),  // Milan
    (0x19, 0x44, APU),      // Rembrandt
    (0x19, 0x61, DESKTOP),  // Raphael
    (0x19, 0x74, APU),      // Phoenix
    (0x19, 0x78, APU),      // Phoenix
    (0x1A, 0x44, DESKTOP)]  // Granite Ridge

  lemma ConfigsAreSeparated(k: nat)
    requires k < |CONFIGS|
    ensures Separated(CONFIGS[k].2)
  {
    assert CONFIGS[k].2 in {DESKTOP, RENOIR, APU};
  }

  // ---- The machine the host sees --------------------------------------------------

  datatype Done = Done(box: Which, reply: Reply)

  datatype World = World(cfg: Config, mp1: Box, rsmu: Box, index: nat,
                         io: seq<bool>,         // outcome of each coming PCI access; then all succeed
                         fw: seq<seq<Done>>,    // what the firmware finishes before each of them
                         polls: nat)            // reads of a RSP register so far
  {
    function At(b: Which): Box {
      if b == Mp1 then mp1 else rsmu
    }

    function With(b: Which, box: Box): World {
      if b == Mp1 then this.(mp1 := box) else this.(rsmu := box)
    }
  }

  function FinishAll(w: World, done: seq<Done>): World
    decreases |done|
  {
    if done == [] then w
    else FinishAll(w.With(done[0].box, w.At(done[0].box).Finish(done[0].reply)), done[1..])
  }

  /** The firmware's turn before one PCI access. */
  function Turn(w: World): World {
    var v := if w.fw == [] then w else FinishAll(w, w.fw[0]);
    v.(io := if w.io == [] then [] else w.io[1..], fw := if w.fw == [] then [] else w.fw[1..])
  }

  predicate Succeeds(w: World) {
    w.io == [] || w.io[0]
  }

  function Load(w: World, addr: nat): Word {
    if RegisterAt(w.cfg.mp1, addr).Some? then LoadBox(w.mp1, RegisterAt(w.cfg.mp1, addr).value)
    else if RegisterAt(w.cfg.rsmu, addr).Some? then LoadBox(w.rsmu, RegisterAt(w.cfg.rsmu, addr).value)
    else 0
  }

  function LoadBox(b: Box, r: Register): Word
    requires r.Arg? ==> r.i < ARG_COUNT
  {
    match r
    case Msg => 0
    case Rsp => b.rsp
    case Arg(i) => b.args[i]
  }

  function Store(w: World, addr: nat, v: Word): World {
    if RegisterAt(w.cfg.mp1, addr).Some? then w.(mp1 := StoreBox(w.mp1, RegisterAt(w.cfg.mp1, addr).value, v))
    else if RegisterAt(w.cfg.rsmu, addr).Some? then w.(rsmu := StoreBox(w.rsmu, RegisterAt(w.cfg.rsmu, addr).value, v))
    else w
  }

  function StoreBox(b: Box, r: Register, v: Word): Box
    requires r.Arg? ==> r.i < ARG_COUNT
  {
    match r
    case Msg => b.Issue(v)
    case Rsp => b.(rsp := v)
    case Arg(i) => b.(args := b.args[i := v])
  }

  // ---- The host's operations as functions of the world ------------------------------

  function WriteIndex(w: World, addr: nat): World {
    if Succeeds(w) then Turn(w).(index := addr) else Turn(w)
  }

  function WriteData(w: World, v: Word): World {
    if Succeeds(w) then Store(Turn(w), Turn(w).index, v) else Turn(w)
  }

  /** smn_read: the value, None when an access failed. */
  function SmnRead(w: World, addr: nat): (World, Option<Word>) {
    var w1 := WriteIndex(w, addr);
    if !Succeeds(w) then (w1, None)
    else if !Succeeds(w1) then (Turn(w1), None)
    else (Turn(w1), Some(Load(Turn(w1), w1.index)))
  }

  /** smn_write_dword */
  function SmnWrite(w: World, addr: nat, v: Word): (World, bool) {
    var w1 := WriteIndex(w, addr);
    if !Succeeds(w) then (w1, false) else (WriteData(w1, v), Succeeds(w1))
  }

  const SMU_TIMEOUT := 10000

  /** Poll RSP at most `left` times; Some non-zero value, or None on failure or timeout. */
  function Poll(w: World, rspAddr: nat, left: nat): (r: (World, Option<Word>))
    ensures r.1.Some? ==> r.1.value != 0
    decreases left
  {
    if left == 0 then (w, None)
    else
      var (w1, v) := SmnRead(w.(polls := w.polls + 1), rspAddr);
      if v.None? then (w1, None)
      else if v.value != 0 then (w1, v)
      else Poll(w1, rspAddr, left - 1)
  }

  /** Write args[i..n] to the ARG registers; false at the first write that fails. */
  function WriteArgs(w: World, argAddr: nat, args: seq<Word>, i: nat): (World, bool)
    decreases |args| - i
  {
    if i >= |args| || i >= ARG_COUNT then (w, true)
    else
      var (w1, ok) := SmnWrite(w, argAddr + i * 4, args[i]);
      if ok then WriteArgs(w1, argAddr, args, i + 1) else (w1, false)
  }

  /** The outcome of a command; `cleared` is false when the unchecked write of 0 to RSP failed. */
  datatype Sent = Sent(w: World, rsp: Word, cleared: bool)

  /** From the MSG write to the answer. */
  function Ask(w: World, m: Mailbox, cmd: Word, cleared: bool): Sent {
    var (w1, ok) := SmnWrite(w, m.msg, cmd);
    if !ok then Sent(w1, 0, cleared)
    else
      var (w2, rsp) := Poll(w1, m.rsp, SMU_TIMEOUT);
      if rsp.None? then Sent(w2, 0, cleared) else Sent(w2, rsp.value, cleared)
  }

  /** smu_send_command */
  function Send(w: World, m: Mailbox, cmd: Word, args: seq<Word>): Sent {
    var (w1, ready) := Poll(w, m.rsp, SMU_TIMEOUT);
    if ready.None? then Sent(w1, 0, true)
    else
      var (w2, cleared) := SmnWrite(w1, m.rsp, 0);
      var (w3, ok) := WriteArgs(w2, m.arg, args, 0);
      if !ok then Sent(w3, 0, cleared) else Ask(w3, m, cmd, cleared)
  }

  /** smu_get_version (MP1, command 2) and smu_get_pm_table_version (RSMU): the first ARG
      register after an answer of 1; 0 when that, or reading it, fails. */
  function GetVersion(w: World, m: Mailbox, cmd: Word): (World, Word) {
    var r := Send(w, m, cmd, []);
    if r.rsp != 1 then (r.w, 0)
    else
      var (w1, version) := SmnRead(r.w, m.arg);
      (w1, OrZero(version))
  }

  /** ((DWORD64)hi << 32) | lo */
  function Wide(hi: nat, lo: nat): nat {
    hi * 0x1_0000_0000 + lo
  }

  function OrZero(v: Option<Word>): Word {
    if v.Some? then v.value else 0
  }

  /** smu_get_dram_base */
  function GetDramBase(w: World): (World, nat) {
    var m := w.cfg.rsmu;
    var r := Send(w, m, w.cfg.cmdGetDramBase, []);
    if r.rsp != 1 then (r.w, 0)
    else
      var (w1, lo) := SmnRead(r.w, m.arg);
      var (w2, hi) := SmnRead(w1, m.arg + 4);
      (w2, Wide(OrZero(hi), OrZero(lo)))
  }

  /** smu_transfer_table_to_dram */
  function TransferTable(w: World): (World, bool) {
    var r := Send(w, w.cfg.rsmu, w.cfg.cmdTransferToDram, [w.cfg.cmdTransferArg0]);
    (r.w, r.rsp == 1)
  }
}
