/** When a handshake with the embedded controller succeeds: the host's side of progress. */
module EcProgress {
  import opened EmbeddedController
  import opened EcProperties
  import opened Wrappers

  // ---- What the controller has done by a turn ------------------------------------------------

  /** The controller's steps in the first n turns */
  function Steps(script: seq<Turn>, n: nat): seq<EcStep>
    requires n <= |script|
  {
    if n == 0 then [] else Steps(script, n - 1) + script[n - 1].steps
  }

  lemma {:induction false} StepsFront(script: seq<Turn>, n: nat)
    requires 0 < n <= |script|
    ensures Steps(script, n) == script[0].steps + Steps(script[1..], n - 1)
  {
    if n > 1 {
      StepsFront(script, n - 1);
      assert script[n - 1] == script[1..][n - 2];
    }
  }

  lemma {:induction false} StepsGrow(script: seq<Turn>, m: nat, n: nat)
    requires m <= n <= |script|
    ensures Steps(script, m) <= Steps(script, n)
  {
    if m < n {
      StepsGrow(script, m, n - 1);
    }
  }

  lemma {:induction false} ActsConcat(ec: Ec, a: seq<EcStep>, b: seq<EcStep>)
    ensures Acts(ec, a + b) == Acts(Acts(ec, a), b)
    decreases |a|
  {
    if a == [] {
      assert a + b == b;
    } else {
      assert (a + b)[1..] == a[1..] + b;
      ActsConcat(Act(ec, a[0]), a[1..], b);
    }
  }

  // ---- The waits ---------------------------------------------------------------------------

  /** What a wait waits for */
  datatype Flag = IbfClear | ObfSet

  predicate Shows(ec: Ec, f: Flag) {
    if f == IbfClear then !ec.ibf else ec.obf
  }

  /** A status read in this turn is in time and gets through. */
  predicate Look(t: Turn) {
    !t.expired && t.ok
  }

  /** The state of the flag at the look in turn j */
  predicate ShownIn(w: World, f: Flag, j: nat)
    requires j < |w.script|
  {
    Shows(Acts(w.ec, Steps(w.script, j + 1)), f)
  }

  /** The flag is first seen in turn k, all looks up to that one being in time and getting through. */
  predicate SeenAt(w: World, f: Flag, k: nat) {
    && k < |w.script|
    && (forall j :: 0 <= j <= k ==> Look(w.script[j]))
    && (forall j :: 0 <= j < k ==> !ShownIn(w, f, j))
    && ShownIn(w, f, k)
  }

  function Wait(w: World, f: Flag): (World, bool) {
    if f == IbfClear then WaitIbf(w) else WaitObf(w)
  }

  lemma WaitStep(w: World, f: Flag)
    requires w.script != []
    ensures var seen := Shows(Pass(w).ec, f);
            Wait(w, f) == if !Look(w.script[0]) then (Pass(w), false)
                          else if seen then (Pass(w), true) else Wait(Pass(w), f)
  {
  }

  lemma Later(w: World, n: nat)
    requires n < |w.script|
    ensures Pass(w).script == w.script[1..]
    ensures Acts(w.ec, Steps(w.script, n + 1)) == Acts(Pass(w).ec, Steps(Pass(w).script, n))
  {
    StepsFront(w.script, n + 1);
    ActsConcat(w.ec, w.script[0].steps, Steps(w.script[1..], n));
  }

  lemma {:induction false} WaitSucceeds(w: World, f: Flag, k: nat)
    requires SeenAt(w, f, k)
    ensures Wait(w, f) == (w.(ec := Acts(w.ec, Steps(w.script, k + 1)), script := w.script[k + 1..]), true)
    decreases k
  {
    hide Wait, Acts, Steps;
    WaitStep(w, f);
    Later(w, 0);
    NoTurn(Pass(w).ec, Pass(w).script);
    if k > 0 {
      var n := Pass(w);
      Later(w, k);
      forall j | 0 <= j < k ensures Look(n.script[j]) {
        assert Look(w.script[j + 1]);
      }
      forall j | 0 <= j < k - 1 ensures !ShownIn(n, f, j) {
        Later(w, j + 1);
        assert !ShownIn(w, f, j + 1);
      }
      assert !ShownIn(w, f, 0);
      WaitSucceeds(n, f, k - 1);
      assert n.script[k..] == w.script[k + 1..];
    }
  }

  lemma NoTurn(ec: Ec, script: seq<Turn>)
    ensures Steps(script, 0) == [] && Acts(ec, []) == ec
  {
  }

  lemma {:induction false} WaitReturns(w: World, f: Flag) returns (k: nat)
    requires Wait(w, f).1
    ensures SeenAt(w, f, k)
    decreases |w.script|
  {
    hide Acts, Steps;
    assert w.script != [];
    WaitStep(w, f);
    hide Wait;
    Later(w, 0);
    var n := Pass(w);
    NoTurn(n.ec, n.script);
    if Shows(n.ec, f) {
      return 0;
    }
    k := WaitReturns(n, f);
    forall j | 0 <= j <= k + 1 ensures Look(w.script[j]) {
      assert j > 0 ==> Look(n.script[j - 1]);
    }
    forall j | 0 <= j < k + 1 ensures !ShownIn(w, f, j) {
      Later(w, j);
      assert j > 0 ==> !ShownIn(n, f, j - 1);
    }
    Later(w, k + 1);
    k := k + 1;
  }

  /** A wait for IBF or OBF succeeds if and only if the flag is seen in some turn before which, and in
      which, no look is late or fails: it polls on for as long as it has time. */
  lemma WaitIff(w: World, f: Flag)
    ensures Wait(w, f).1 <==> exists k :: SeenAt(w, f, k)
  {
    hide Wait, SeenAt;
    if Wait(w, f).1 {
      var k := WaitReturns(w, f);
    }
    if k :| SeenAt(w, f, k) {
      WaitSucceeds(w, f, k);
    }
  }

  // ---- Put and Get ----------------------------------------------------------------------------

  lemma PutAt(w: World, port: nat, v: Byte, k: nat)
    requires SeenAt(w, IbfClear, k)
    ensures Put(w, port, v).1 <==> k + 1 < |w.script| && w.script[k + 1].ok
    ensures Put(w, port, v).1 ==>
              && Put(w, port, v).0.script == w.script[k + 2..]
              && Put(w, port, v).0.ec
                 == Acts(w.ec, Steps(w.script, k + 2)).(ibf := true, command := port == CMD_PORT, input := v)
  {
    hide Wait, WaitIbf, Acts, Steps, SeenAt;
    assert k < |w.script| by { WaitTurn(w, IbfClear, k); }
    WaitSucceeds(w, IbfClear, k);
    WaitIs(w);
    if k + 1 < |w.script| {
      OneTurnMore(w.ec, w.script, k + 1);
    }
  }

  lemma GetAt(w: World, k: nat)
    requires SeenAt(w, ObfSet, k)
    ensures Get(w).1 == if k + 1 < |w.script| && w.script[k + 1].ok
                        then Some(Acts(w.ec, Steps(w.script, k + 2)).output) else None
  {
    hide Wait, WaitObf, Acts, Steps, SeenAt;
    assert k < |w.script| by { WaitTurn(w, ObfSet, k); }
    WaitSucceeds(w, ObfSet, k);
    WaitIs(w);
    if k + 1 < |w.script| {
      OneTurnMore(w.ec, w.script, k + 1);
    }
  }

  lemma WaitTurn(w: World, f: Flag, k: nat)
    requires SeenAt(w, f, k)
    ensures k < |w.script|
  {
  }

  lemma WaitIs(w: World)
    ensures Wait(w, IbfClear) == WaitIbf(w) && Wait(w, ObfSet) == WaitObf(w)
  {
  }

  lemma OneTurnMore(ec: Ec, script: seq<Turn>, n: nat)
    requires n < |script|
    ensures Acts(ec, Steps(script, n + 1)) == Acts(Acts(ec, Steps(script, n)), script[n..][0].steps)
  {
    ActsConcat(ec, Steps(script, n), script[n].steps);
  }

  // ---- The controller's answer, in closed form ---------------------------------------------------

  /** It takes the byte in the input buffer and, later, finishes. */
  predicate Answers(steps: seq<EcStep>) {
    exists i, j :: 0 <= i < j < |steps| && steps[i] == Take && steps[j] == Finish
  }

  lemma AnswersFront(steps: seq<EcStep>)
    requires steps != []
    ensures Answers(steps) <==> (steps[0] == Take && Finish in steps[1..]) || Answers(steps[1..])
  {
    var rest := steps[1..];
    if i, j :| 0 <= i < j < |steps| && steps[i] == Take && steps[j] == Finish {
      assert rest[j - 1] == Finish;
      if i > 0 {
        assert rest[i - 1] == Take;
      }
    }
    if i, j :| 0 <= i < j < |rest| && rest[i] == Take && rest[j] == Finish {
      assert steps[i + 1] == Take && steps[j + 1] == Finish;
    }
    if j :| 0 <= j < |rest| && rest[j] == Finish {
      assert steps[j + 1] == Finish;
    }
  }

  lemma {:induction false} QuietStays(ec: Ec, steps: seq<EcStep>)
    requires !ec.ibf && !ec.work.Fetch?
    ensures Acts(ec, steps) == ec
    decreases |steps|
  {
    if steps != [] {
      QuietStays(ec, steps[1..]);
    }
  }

  /** The read command is taken with the first Take, and nothing else happens. */
  lemma {:induction false} CommandTaken(ec: Ec, steps: seq<EcStep>)
    requires ec.ibf && ec.command && ec.input == CMD_READ && ec.work == Idle
    ensures Acts(ec, steps) == if Take in steps then ec.(ibf := false, work := Await) else ec
    decreases |steps|
  {
    if steps != [] {
      assert Take in steps <==> steps[0] == Take || Take in steps[1..];
      if steps[0] == Take {
        QuietStays(Act(ec, Take), steps[1..]);
      } else {
        CommandTaken(ec, steps[1..]);
      }
    }
  }

  /** The address is answered once it is taken and then finished. */
  lemma {:induction false} AddressAnswered(ec: Ec, steps: seq<EcStep>)
    requires ec.ibf && !ec.command && ec.work == Await && !ec.obf
    ensures Acts(ec, steps).obf <==> Answers(steps)
    ensures Answers(steps) ==> Acts(ec, steps).output == ec.mem[ec.input]
    decreases |steps|
  {
    if steps != [] {
      AnswersFront(steps);
      if steps[0] == Take {
        FetchFinished(Act(ec, Take), steps[1..]);
        if Answers(steps[1..]) {
          var i, j :| 0 <= i < j < |steps[1..]| && steps[1..][i] == Take && steps[1..][j] == Finish;
        }
      } else {
        AddressAnswered(ec, steps[1..]);
      }
    }
  }

  lemma {:induction false} FetchFinished(ec: Ec, steps: seq<EcStep>)
    requires !ec.ibf && ec.work.Fetch? && !ec.obf
    ensures Acts(ec, steps).obf <==> Finish in steps
    ensures Finish in steps ==> Acts(ec, steps).output == ec.mem[ec.work.addr]
    decreases |steps|
  {
    if steps != [] {
      assert Finish in steps <==> steps[0] == Finish || Finish in steps[1..];
      if steps[0] == Finish {
        QuietStays(Act(ec, Finish), steps[1..]);
      } else {
        FetchFinished(ec, steps[1..]);
      }
    }
  }

  // ---- The theorem ---------------------------------------------------------------------------

  /** The looks up to turn a are in time and get through, and the controller first takes a byte in it. */
  predicate TakenIn(s: seq<Turn>, a: nat) {
    && a < |s| && (forall j :: 0 <= j <= a ==> Look(s[j]))
    && Take !in Steps(s, a) && Take in Steps(s, a + 1)
  }

  /** The same for a byte that is taken and then answered. */
  predicate AnsweredIn(s: seq<Turn>, b: nat) {
    && b < |s| && (forall j :: 0 <= j <= b ==> Look(s[j]))
    && !Answers(Steps(s, b)) && Answers(Steps(s, b + 1))
  }

  /** A look and the command; looks until the controller has taken it, and the address; looks until it
      has answered, and the read. The second wait ends in its turn a, the third in its turn b. */
  predicate Served(s: seq<Turn>, a: nat, b: nat) {
    && |s| >= 2 && Look(s[0]) && s[1].ok
    && var s1 := s[2..];
    && TakenIn(s1, a) && a + 1 < |s1| && s1[a + 1].ok
    && var s2 := s1[a + 2..];
    && AnsweredIn(s2, b) && b + 1 < |s2| && s2[b + 1].ok
  }

  lemma SeenAtOnce(w: World, k: nat)
    requires Quiet(w.ec)
    ensures SeenAt(w, IbfClear, k) <==> k == 0 && w.script != [] && Look(w.script[0])
  {
    if k < |w.script| {
      QuietStays(w.ec, Steps(w.script, 1));
      QuietStays(w.ec, Steps(w.script, k + 1));
      assert k > 0 ==> ShownIn(w, IbfClear, 0);
    }
  }

  function AfterCommand(ec: Ec): Ec {
    ec.(ibf := true, command := true, input := CMD_READ)
  }

  function AfterAddress(ec: Ec, reg: Byte): Ec {
    ec.(ibf := true, command := false, input := reg, work := Await)
  }

  lemma SeenTaken(w: World, a: nat)
    requires w.ec.ibf && w.ec.command && w.ec.input == CMD_READ && w.ec.work == Idle
    ensures SeenAt(w, IbfClear, a) <==> TakenIn(w.script, a)
  {
    hide Acts, Steps;
    if a < |w.script| {
      forall j | 0 <= j <= a ensures ShownIn(w, IbfClear, j) <==> Take in Steps(w.script, j + 1) {
        CommandTaken(w.ec, Steps(w.script, j + 1));
      }
      NoTurn(w.ec, w.script);
      if a > 0 {
        assert ShownIn(w, IbfClear, a - 1) <==> Take in Steps(w.script, a);
        forall j | 0 <= j < a ensures ShownIn(w, IbfClear, j) ==> Take in Steps(w.script, a) {
          StepsGrow(w.script, j + 1, a);
        }
      }
    }
  }

  lemma AnswersGrow(a: seq<EcStep>, b: seq<EcStep>)
    requires a <= b && Answers(a)
    ensures Answers(b)
  {
    var i, j :| 0 <= i < j < |a| && a[i] == Take && a[j] == Finish;
    assert b[i] == Take && b[j] == Finish;
  }

  lemma SeenAnswered(w: World, b: nat)
    requires w.ec.ibf && !w.ec.command && w.ec.work == Await && !w.ec.obf
    ensures SeenAt(w, ObfSet, b) <==> AnsweredIn(w.script, b)
  {
    hide Acts, Steps, Answers;
    if b < |w.script| {
      forall j | 0 <= j <= b ensures ShownIn(w, ObfSet, j) <==> Answers(Steps(w.script, j + 1)) {
        AddressAnswered(w.ec, Steps(w.script, j + 1));
      }
      NoTurn(w.ec, w.script);
      if b == 0 {
        NothingAnswers();
      } else {
        assert ShownIn(w, ObfSet, b - 1) <==> Answers(Steps(w.script, b));
        forall j | 0 <= j < b ensures ShownIn(w, ObfSet, j) ==> Answers(Steps(w.script, b)) {
          StepsGrow(w.script, j + 1, b);
          if Answers(Steps(w.script, j + 1)) {
            AnswersGrow(Steps(w.script, j + 1), Steps(w.script, b));
          }
        }
      }
    }
  }

  lemma NothingAnswers()
    ensures !Answers([])
  {
  }

  /** The command from the quiet state */
  lemma CommandPut(w: World)
    requires Quiet(w.ec)
    ensures Put(w, CMD_PORT, CMD_READ).1 <==> |w.script| >= 2 && Look(w.script[0]) && w.script[1].ok
    ensures Put(w, CMD_PORT, CMD_READ).1 ==>
              && Put(w, CMD_PORT, CMD_READ).0.script == w.script[2..]
              && Put(w, CMD_PORT, CMD_READ).0.ec == AfterCommand(w.ec)
  {
    hide Wait, WaitIbf, Acts, Steps, SeenAt;
    WaitIs(w);
    SeenAtOnce(w, 0);
    if SeenAt(w, IbfClear, 0) {
      PutAt(w, CMD_PORT, CMD_READ, 0);
      if |w.script| >= 2 {
        QuietStays(w.ec, Steps(w.script, 2));
      }
    } else if WaitIbf(w).1 {
      var k := WaitReturns(w, IbfClear);
      SeenAtOnce(w, k);
    }
  }

  /** The address, when the controller takes the command in turn a */
  lemma AddressPut(w: World, reg: Byte, a: nat)
    requires w.ec.ibf && w.ec.command && w.ec.input == CMD_READ && w.ec.work == Idle && TakenIn(w.script, a)
    ensures Put(w, DATA_PORT, reg).1 <==> a + 1 < |w.script| && w.script[a + 1].ok
    ensures Put(w, DATA_PORT, reg).1 ==>
              && Put(w, DATA_PORT, reg).0.script == w.script[a + 2..]
              && Put(w, DATA_PORT, reg).0.ec == AfterAddress(w.ec, reg)
  {
    hide Acts, SeenAt;
    SeenTaken(w, a);
    PutAt(w, DATA_PORT, reg, a);
    if a + 1 < |w.script| {
      StepsGrow(w.script, a + 1, a + 2);
      CommandTaken(w.ec, Steps(w.script, a + 2));
    }
  }

  lemma AnswerGot(w: World, b: nat)
    requires w.ec.ibf && !w.ec.command && w.ec.work == Await && !w.ec.obf && AnsweredIn(w.script, b)
    ensures Get(w).1 == if b + 1 < |w.script| && w.script[b + 1].ok then Some(w.ec.mem[w.ec.input]) else None
  {
    hide Acts, SeenAt;
    SeenAnswered(w, b);
    GetAt(w, b);
    if b + 1 < |w.script| {
      StepsGrow(w.script, b + 1, b + 2);
      AnswersGrow(Steps(w.script, b + 1), Steps(w.script, b + 2));
      AddressAnswered(w.ec, Steps(w.script, b + 2));
    }
  }

  /** From the quiet state a read returns the controller's byte at the register if and only if the looks
      of its waits are in time until the controller has taken the command, and until it has taken the
      address and answered, and none of its accesses fails. The controller may take its time: the host
      polls on. */
  lemma ReadSucceedsIff(w: World, reg: Byte)
    requires Quiet(w.ec)
    ensures ReadReg(w, reg).1 == Some(w.ec.mem[reg]) <==> exists a, b :: Served(w.script, a, b)
    ensures ReadReg(w, reg).1.None? <==> !exists a, b :: Served(w.script, a, b)
  {
    hide Put, Get, TakenIn, AnsweredIn;
    CommandPut(w);
    var (w1, sent) := Put(w, CMD_PORT, CMD_READ);
    if a, b :| Served(w.script, a, b) {
      AddressPut(w1, reg, a);
      AnswerGot(Put(w1, DATA_PORT, reg).0, b);
    }
    if ReadReg(w, reg).1.Some? {
      ReadIsAnswered(w, reg);
      var a, b := ReadIsServed(w, reg);
    }
  }

  lemma ReadIsServed(w: World, reg: Byte) returns (a: nat, b: nat)
    requires Quiet(w.ec) && ReadReg(w, reg).1.Some?
    ensures Served(w.script, a, b)
  {
    hide TakenIn, AnsweredIn, Wait, WaitIbf, WaitObf, Acts, SeenAt;
    CommandPut(w);
    var w1 := Put(w, CMD_PORT, CMD_READ).0;
    WaitIs(w1);
    a := WaitReturns(w1, IbfClear);
    SeenTaken(w1, a);
    AddressPut(w1, reg, a);
    var w2 := Put(w1, DATA_PORT, reg).0;
    WaitIs(w2);
    b := WaitReturns(w2, ObfSet);
    SeenAnswered(w2, b);
    AnswerGot(w2, b);
    assert a + 1 < |w1.script|;
    assert b + 1 < |w2.script|;
  }

  /** And so for the two reads of a word. */
  lemma WordSucceedsIff(w: World, reg: Byte)
    requires Quiet(w.ec)
    ensures
      var n := ReadReg(w, reg).0;
      && (ReadWord(w, reg).1.Some?
          <==> (exists a, b :: Served(w.script, a, b)) && exists a, b :: Served(n.script, a, b))
      && (ReadWord(w, reg).1.Some? ==> ReadWord(w, reg).1.value == Word(w.ec.mem, reg))
  {
    hide ReadReg, Served, Quiet;
    ReadSucceedsIff(w, reg);
    if ReadReg(w, reg).1.Some? {
      ReadIsAnswered(w, reg);
      ReadSucceedsIff(ReadReg(w, reg).0, (reg + 1) % 256);
    }
    WordIsAnswered(w, reg);
  }
}
