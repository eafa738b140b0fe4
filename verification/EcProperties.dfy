/** What a handshake with the embedded controller guarantees, over every interleaving. */
module EcProperties {
  import opened EmbeddedController
  import opened Wrappers

  // ---- No overrun ------------------------------------------------------------------

  /** Every write of log after the first n found the input buffer taken. */
  predicate NoOverrun(log: seq<HostWrite>, n: nat) {
    forall k :: n <= k < |log| ==> !log[k].overrun
  }

  lemma {:induction false} ActsKeep(ec: Ec, steps: seq<EcStep>)
    ensures Acts(ec, steps).mem == ec.mem
    ensures !ec.ibf ==> !Acts(ec, steps).ibf
    decreases |steps|
  {
    if steps != [] {
      ActsKeep(Act(ec, steps[0]), steps[1..]);
    }
  }

  lemma PassKeeps(w: World)
    ensures Pass(w).ec.mem == w.ec.mem && Pass(w).log == w.log
    ensures !w.ec.ibf ==> !Pass(w).ec.ibf
  {
    if w.script != [] {
      ActsKeep(w.ec, w.script[0].steps);
    }
  }

  lemma {:induction false} WaitIbfKeeps(w: World)
    ensures WaitIbf(w).0.ec.mem == w.ec.mem && WaitIbf(w).0.log == w.log
    ensures WaitIbf(w).1 ==> !WaitIbf(w).0.ec.ibf
    decreases |w.script|
  {
    PassKeeps(w);
    if !Expired(w) && ReadStatus(w).1.Some? && Ibf(ReadStatus(w).1.value) {
      WaitIbfKeeps(Pass(w));
    }
  }

  lemma {:induction false} WaitObfKeeps(w: World)
    ensures WaitObf(w).0.ec.mem == w.ec.mem && WaitObf(w).0.log == w.log
    ensures WaitObf(w).1 ==> WaitObf(w).0.ec.obf
    decreases |w.script|
  {
    PassKeeps(w);
    if !Expired(w) && ReadStatus(w).1.Some? && !Obf(ReadStatus(w).1.value) {
      WaitObfKeeps(Pass(w));
    }
  }

  lemma PutIsSafe(w: World, port: nat, v: Byte)
    ensures Put(w, port, v).0.ec.mem == w.ec.mem
    ensures w.log <= Put(w, port, v).0.log && NoOverrun(Put(w, port, v).0.log, |w.log|)
  {
    WaitIbfKeeps(w);
    PassKeeps(WaitIbf(w).0);
  }

  lemma GetIsSafe(w: World)
    ensures Get(w).0.ec.mem == w.ec.mem && Get(w).0.log == w.log
  {
    WaitObfKeeps(w);
    PassKeeps(WaitObf(w).0);
  }

  /** From any state, whatever the controller and the ports do: no byte of the host is ever written
      over one that the controller has not taken. */
  lemma ReadNeverOverruns(w: World, reg: Byte)
    ensures var n := ReadReg(w, reg).0;
            n.ec.mem == w.ec.mem && w.log <= n.log && NoOverrun(n.log, |w.log|)
  {
    hide Put, Get;
    PutIsSafe(w, CMD_PORT, CMD_READ);
    var (w1, sent) := Put(w, CMD_PORT, CMD_READ);
    PutIsSafe(w1, DATA_PORT, reg);
    GetIsSafe(Put(w1, DATA_PORT, reg).0);
  }

  // ---- The answer, from the quiet state ----------------------------------------------

  /** Both buffers empty and no command pending */
  predicate Quiet(ec: Ec) {
    !ec.ibf && !ec.obf && ec.work == Idle
  }

  /** The read command is on its way or has been taken. */
  predicate Commanded(ec: Ec) {
    !ec.obf && if ec.ibf then ec.command && ec.input == CMD_READ && ec.work == Idle else ec.work == Await
  }

  /** The address is on its way, or being fetched, or its byte is ready. */
  predicate Answering(ec: Ec, reg: Byte) {
    if ec.ibf then !ec.command && ec.input == reg && ec.work == Await && !ec.obf
    else if ec.obf then ec.work == Idle && ec.output == ec.mem[reg]
    else ec.work == Fetch(reg)
  }

  /** Each of the three phases of a read is left only by the host. */
  lemma {:induction false} PhasesHold(ec: Ec, steps: seq<EcStep>, reg: Byte)
    ensures Quiet(ec) ==> Quiet(Acts(ec, steps))
    ensures Commanded(ec) ==> Commanded(Acts(ec, steps))
    ensures Answering(ec, reg) ==> Answering(Acts(ec, steps), reg)
    decreases |steps|
  {
    if steps != [] {
      PhasesHold(Act(ec, steps[0]), steps[1..], reg);
    }
  }

  lemma PhasesPass(w: World, reg: Byte)
    ensures Quiet(w.ec) ==> Quiet(Pass(w).ec)
    ensures Commanded(w.ec) ==> Commanded(Pass(w).ec)
    ensures Answering(w.ec, reg) ==> Answering(Pass(w).ec, reg)
  {
    if w.script != [] {
      PhasesHold(w.ec, w.script[0].steps, reg);
    }
  }

  lemma {:induction false} PhasesWait(w: World, reg: Byte)
    ensures Quiet(w.ec) ==> Quiet(WaitIbf(w).0.ec)
    ensures Commanded(w.ec) ==> Commanded(WaitIbf(w).0.ec)
    ensures Answering(w.ec, reg) ==> Answering(WaitObf(w).0.ec, reg)
    decreases |w.script|
  {
    PhasesPass(w, reg);
    if !Expired(w) && ReadStatus(w).1.Some? {
      PhasesWait(Pass(w), reg);
    }
  }

  lemma PutCommand(w: World)
    requires Quiet(w.ec) && Put(w, CMD_PORT, CMD_READ).1
    ensures Commanded(Put(w, CMD_PORT, CMD_READ).0.ec)
  {
    PhasesWait(w, 0);
    PhasesPass(WaitIbf(w).0, 0);
  }

  lemma PutAddress(w: World, reg: Byte)
    requires Commanded(w.ec) && Put(w, DATA_PORT, reg).1
    ensures Answering(Put(w, DATA_PORT, reg).0.ec, reg)
  {
    PhasesWait(w, reg);
    WaitIbfKeeps(w);
    PhasesPass(WaitIbf(w).0, reg);
    PassKeeps(WaitIbf(w).0);
  }

  lemma GetAnswer(w: World, reg: Byte)
    requires Answering(w.ec, reg) && Get(w).1.Some?
    ensures Get(w).1.value == w.ec.mem[reg] && Quiet(Get(w).0.ec)
  {
    PhasesWait(w, reg);
    WaitObfKeeps(w);
    PhasesPass(WaitObf(w).0, reg);
    ObfStays(WaitObf(w).0);
    PassKeeps(WaitObf(w).0);
  }

  lemma {:induction false} ObfHolds(ec: Ec, steps: seq<EcStep>)
    requires ec.obf
    ensures Acts(ec, steps).obf && Acts(ec, steps).output == ec.output
    decreases |steps|
  {
    if steps != [] {
      ObfHolds(Act(ec, steps[0]), steps[1..]);
    }
  }

  lemma ObfStays(w: World)
    requires w.ec.obf
    ensures Pass(w).ec.obf && Pass(w).ec.output == w.ec.output
  {
    if w.script != [] {
      ObfHolds(w.ec, w.script[0].steps);
    }
  }

  /** From the quiet state a read that does not fail returns the controller's byte at that register
      and leaves the state quiet, however the two sides interleave. */
  lemma ReadIsAnswered(w: World, reg: Byte)
    requires Quiet(w.ec) && ReadReg(w, reg).1.Some?
    ensures ReadReg(w, reg).1.value == w.ec.mem[reg]
    ensures Quiet(ReadReg(w, reg).0.ec) && ReadReg(w, reg).0.ec.mem == w.ec.mem
  {
    hide Put, Get, Commanded, Answering, Quiet;
    var w1 := Put(w, CMD_PORT, CMD_READ).0;
    var w2 := Put(w1, DATA_PORT, reg).0;
    PutCommand(w);
    PutIsSafe(w, CMD_PORT, CMD_READ);
    PutAddress(w1, reg);
    PutIsSafe(w1, DATA_PORT, reg);
    GetAnswer(w2, reg);
    GetIsSafe(w2);
  }

  /** The word at reg: low byte first, the register number wrapping after 255. */
  function Word(mem: Memory, reg: Byte): nat {
    mem[reg] as nat + 256 * mem[(reg + 1) % 256] as nat
  }

  /** A run of ec_read_word calls, going on after a failure as ec_read_all_sensors does. */
  function ReadWords(w: World, regs: seq<Byte>): (World, seq<Option<nat>>)
    decreases |regs|
  {
    if regs == [] then (w, [])
    else
      var (n, v) := ReadWord(w, regs[0]);
      var (last, vs) := ReadWords(n, regs[1..]);
      (last, [v] + vs)
  }

  lemma WordIsAnswered(w: World, reg: Byte)
    requires Quiet(w.ec)
    ensures
      var (n, v) := ReadWord(w, reg);
      v.Some? ==> v.value == Word(w.ec.mem, reg) && Quiet(n.ec) && n.ec.mem == w.ec.mem
  {
    hide ReadReg, Quiet;
    if ReadWord(w, reg).1.Some? {
      ReadIsAnswered(w, reg);
      ReadIsAnswered(ReadReg(w, reg).0, (reg + 1) % 256);
    }
  }

  /** In a run from the quiet state every word up to the first failure is right. */
  lemma {:induction false} WordsAreAnswered(w: World, regs: seq<Byte>, k: nat)
    requires Quiet(w.ec) && k < |ReadWords(w, regs).1|
    requires forall j :: 0 <= j <= k ==> ReadWords(w, regs).1[j].Some?
    ensures |ReadWords(w, regs).1| == |regs|
    ensures ReadWords(w, regs).1[k].value == Word(w.ec.mem, regs[k])
    decreases |regs|
  {
    hide ReadWord, Quiet, Word;
    var (n, v) := ReadWord(w, regs[0]);
    var vs := ReadWords(n, regs[1..]).1;
    assert ReadWords(w, regs).1 == [v] + vs;
    assert ReadWords(w, regs).1[0].Some?;
    WordIsAnswered(w, regs[0]);
    Lengths(w, regs);
    if k > 0 {
      forall j | 0 <= j <= k - 1 ensures vs[j].Some? {
        assert vs[j] == ReadWords(w, regs).1[j + 1];
      }
      WordsAreAnswered(n, regs[1..], k - 1);
    }
  }

  lemma {:induction false} Lengths(w: World, regs: seq<Byte>)
    ensures |ReadWords(w, regs).1| == |regs|
    decreases |regs|
  {
    if regs != [] {
      Lengths(ReadWord(w, regs[0]).0, regs[1..]);
    }
  }

  // ---- Exactly when the answer is right ------------------------------------------------

  /** The byte of an earlier, abandoned read that the controller still owes the host, if any. */
  function Owed(ec: Ec): Option<Byte> {
    if ec.obf then Some(ec.output)
    else if ec.work.Fetch? then Some(ec.mem[ec.work.addr])
    else if ec.ibf && !ec.command && ec.work == Await then Some(ec.mem[ec.input])
    else None
  }

  /** The controller owes no byte, or only v. */
  predicate OwesOnly(ec: Ec, v: Byte) {
    Owed(ec).None? || Owed(ec).value == v
  }

  lemma {:induction false} OwesAfterActs(ec: Ec, steps: seq<EcStep>, v: Byte)
    requires OwesOnly(ec, v)
    ensures OwesOnly(Acts(ec, steps), v)
    decreases |steps|
  {
    if steps != [] {
      OwesAfterActs(Act(ec, steps[0]), steps[1..], v);
    }
  }

  lemma OwesAfterPass(w: World, v: Byte)
    requires OwesOnly(w.ec, v)
    ensures OwesOnly(Pass(w).ec, v)
  {
    if w.script != [] {
      OwesAfterActs(w.ec, w.script[0].steps, v);
    }
  }

  lemma {:induction false} OwesAfterWait(w: World, v: Byte)
    requires OwesOnly(w.ec, v)
    ensures OwesOnly(WaitIbf(w).0.ec, v) && OwesOnly(WaitObf(w).0.ec, v)
    decreases |w.script|
  {
    hide OwesOnly;
    OwesAfterPass(w, v);
    if !Expired(w) && ReadStatus(w).1.Some? {
      OwesAfterWait(Pass(w), v);
    }
  }

  lemma OwesAfterPut(w: World, port: nat, b: Byte, v: Byte)
    requires OwesOnly(w.ec, v)
    requires port == CMD_PORT || w.ec.mem[b] == v
    ensures OwesOnly(Put(w, port, b).0.ec, v)
  {
    OwesAfterWait(w, v);
    WaitIbfKeeps(w);
    OwesAfterPass(WaitIbf(w).0, v);
    PassKeeps(WaitIbf(w).0);
  }

  lemma OwesThenGets(w: World, v: Byte)
    requires OwesOnly(w.ec, v) && Get(w).1.Some?
    ensures Get(w).1.value == v
  {
    OwesAfterWait(w, v);
    WaitObfKeeps(w);
    ObfStays(WaitObf(w).0);
  }

  /** Every read of reg that does not fail, in every interleaving, returns the byte at reg. */
  ghost predicate AlwaysRight(ec: Ec, reg: Byte) {
    forall script: seq<Turn> {:trigger ReadReg(World(ec, script, []), reg)} ::
      var v := ReadReg(World(ec, script, []), reg).1;
      v.Some? ==> v.value == ec.mem[reg]
  }

  lemma RightIfOwedNothing(ec: Ec, reg: Byte, script: seq<Turn>)
    requires OwesOnly(ec, ec.mem[reg])
    ensures var v := ReadReg(World(ec, script, []), reg).1;
            v.Some? ==> v.value == ec.mem[reg]
  {
    hide Put, Get, OwesOnly;
    var w := World(ec, script, []);
    var w1 := Put(w, CMD_PORT, CMD_READ).0;
    var w2 := Put(w1, DATA_PORT, reg).0;
    OwesAfterPut(w, CMD_PORT, CMD_READ, ec.mem[reg]);
    PutIsSafe(w, CMD_PORT, CMD_READ);
    OwesAfterPut(w1, DATA_PORT, reg, ec.mem[reg]);
    if Get(w2).1.Some? {
      OwesThenGets(w2, ec.mem[reg]);
    }
  }

  function Plain(steps: seq<EcStep>): Turn {
    Turn(false, steps, true, 0)
  }

  /** A run in which the byte owed comes first. */
  const OVERTAKEN: seq<Turn> :=
    [Plain([Finish, Take, Finish]), Plain([]), Plain([Take]), Plain([]), Plain([]), Plain([])]

  /** A wait that sees IBF clear at once, and a write that follows at once */
  lemma PutAtOnce(w: World, port: nat, v: Byte, first: seq<EcStep>, rest: seq<Turn>)
    requires w.script == [Plain(first), Plain([])] + rest && !Acts(w.ec, first).ibf
    ensures Put(w, port, v).1
    ensures Put(w, port, v).0.script == rest
    ensures Put(w, port, v).0.ec == Acts(w.ec, first).(ibf := true, command := port == CMD_PORT, input := v)
  {
    assert w.script[1..] == [Plain([])] + rest;
    assert w.script[1..][1..] == rest;
  }

  lemma GetAtOnce(w: World)
    requires w.script == [Plain([]), Plain([])] && w.ec.obf
    ensures Get(w).1 == Some(w.ec.output)
  {
    assert w.script[1..] == [Plain([])];
  }

  lemma ThreeSteps(ec: Ec)
    ensures Acts(ec, [Finish, Take, Finish]) == Act(Act(Act(ec, Finish), Take), Finish)
    ensures Acts(ec, [Take]) == Act(ec, Take)
  {
    assert [Finish, Take, Finish][1..] == [Take, Finish] && [Take, Finish][1..] == [Finish];
    assert Acts(Act(ec, Finish), [Take, Finish]) == Acts(Act(Act(ec, Finish), Take), [Finish]);
  }

  lemma OvertakenReturnsOwed(ec: Ec, reg: Byte)
    requires Owed(ec).Some?
    ensures ReadReg(World(ec, OVERTAKEN, []), reg).1 == Owed(ec)
  {
    hide Put, Get, Acts;
    var w := World(ec, OVERTAKEN, []);
    ThreeSteps(ec);
    assert OVERTAKEN == [Plain([Finish, Take, Finish]), Plain([])] + OVERTAKEN[2..];
    PutAtOnce(w, CMD_PORT, CMD_READ, [Finish, Take, Finish], OVERTAKEN[2..]);
    var w1 := Put(w, CMD_PORT, CMD_READ).0;
    ThreeSteps(w1.ec);
    assert OVERTAKEN[2..] == [Plain([Take]), Plain([])] + OVERTAKEN[4..];
    PutAtOnce(w1, DATA_PORT, reg, [Take], OVERTAKEN[4..]);
    var w2 := Put(w1, DATA_PORT, reg).0;
    assert OVERTAKEN[4..] == [Plain([]), Plain([])];
    GetAtOnce(w2);
  }

  /** A read is right in every interleaving exactly if the controller owes no other byte: so it is from
      the quiet state, but not after a read that timed out before its answer came. */
  lemma AlwaysRightIff(ec: Ec, reg: Byte)
    ensures AlwaysRight(ec, reg) <==> OwesOnly(ec, ec.mem[reg])
  {
    if OwesOnly(ec, ec.mem[reg]) {
      forall script: seq<Turn>
        ensures var v := ReadReg(World(ec, script, []), reg).1;
                v.Some? ==> v.value == ec.mem[reg]
      {
        RightIfOwedNothing(ec, reg, script);
      }
    } else {
      OvertakenReturnsOwed(ec, reg);
    }
  }

  /** A read that is given up after its address was sent. */
  const SLOW: seq<Turn> :=
    [Plain([]), Plain([]), Plain([Take]), Plain([]), Turn(true, [], true, 0)]

  /** A read that times out, even from the quiet state, spoils the next one: if the two registers
      differ, the next read can return the byte of the first. */
  lemma TimeoutSpoilsNextRead(ec: Ec, reg: Byte, other: Byte)
    requires Quiet(ec) && ec.mem[other] != ec.mem[reg]
    ensures var (n, v) := ReadReg(World(ec, SLOW, []), reg);
            v.None? && n.script == [] && !AlwaysRight(n.ec, other)
  {
    hide Put, Acts, AlwaysRight;
    var w := World(ec, SLOW, []);
    NoSteps(ec);
    assert SLOW == [Plain([]), Plain([])] + SLOW[2..];
    PutAtOnce(w, CMD_PORT, CMD_READ, [], SLOW[2..]);
    var w1 := Put(w, CMD_PORT, CMD_READ).0;
    ThreeSteps(w1.ec);
    assert SLOW[2..] == [Plain([Take]), Plain([])] + SLOW[4..];
    PutAtOnce(w1, DATA_PORT, reg, [Take], SLOW[4..]);
    var w2 := Put(w1, DATA_PORT, reg).0;
    NoSteps(w2.ec);
    assert SLOW[4..] == [Turn(true, [], true, 0)];
    AlwaysRightIff(w2.ec, other);
  }

  lemma NoSteps(ec: Ec)
    ensures Acts(ec, []) == ec
  {
  }
}
