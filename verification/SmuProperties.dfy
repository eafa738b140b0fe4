/** Safety of the mailbox protocol over every interleaving and every pattern of failures. */
module SmuProperties {
  import opened Smu
  import opened Wrappers

  // ---- What the firmware can do between two host accesses ----------------------------

  /** t is s, or s after the firmware has finished the command pending in s. */
  ghost predicate Later(s: Box, t: Box) {
    t == s || (s.pending.Some? && exists reply :: t == s.Finish(reply))
  }

  lemma {:induction false} FinishAllLater(w: World, done: seq<Done>, b: Which)
    ensures Later(w.At(b), FinishAll(w, done).At(b))
    ensures FinishAll(w, done).(mp1 := w.mp1, rsmu := w.rsmu) == w
    decreases |done|
  {
    if done != [] {
      var v := w.With(done[0].box, w.At(done[0].box).Finish(done[0].reply));
      assert Later(w.At(b), v.At(b));
      FinishAllLater(v, done[1..], b);
    }
  }

  /** The firmware's turn leaves registers of idle mailboxes, the host's index and configuration. */
  lemma {:induction false} TurnLater(w: World, b: Which)
    ensures Later(w.At(b), Turn(w).At(b))
    ensures Turn(w).cfg == w.cfg && Turn(w).index == w.index && Turn(w).polls == w.polls
  {
    if w.fw != [] {
      FinishAllLater(w, w.fw[0], b);
    }
  }

  /** RSP is 0 for as long as the firmware works on a command. */
  predicate Coherent(s: Box) {
    s.pending.Some? ==> s.rsp == 0
  }

  /** Every answer follows its own command at once, and the firmware executed that command with
      the arguments ARG held when MSG was written; no MSG was written while one was pending. */
  predicate Orderly(s: Box) {
    && (forall i :: 0 <= i < |s.log| ==> MatchesPrevious(s.log, i))
    && (s.pending.Some? ==> s.log != [] && s.log[|s.log| - 1] == Issued(s.pending.value, s.args, false))
  }

  predicate MatchesPrevious(log: seq<Event>, i: nat)
    requires i < |log|
  {
    match log[i]
    case Issued(_, _, busy) => !busy
    case Answered(cmd, args, _) => i > 0 && log[i - 1] == Issued(cmd, args, false)
  }

  predicate Sound(s: Box) {
    Coherent(s) && Orderly(s)
  }

  lemma {:induction false} LaterSound(s: Box, t: Box)
    requires Later(s, t) && Sound(s)
    ensures Sound(t)
  {
    if t != s {
      forall i | 0 <= i < |t.log| ensures MatchesPrevious(t.log, i) {
        if i < |s.log| {
          assert MatchesPrevious(s.log, i);
        }
      }
    }
  }

  lemma {:induction false} IssueSound(s: Box, cmd: Word)
    requires Orderly(s) && s.pending.None? && s.rsp == 0
    ensures Sound(s.Issue(cmd))
  {
    var t := s.Issue(cmd);
    forall i | 0 <= i < |t.log| ensures MatchesPrevious(t.log, i) {
      if i < |s.log| {
        assert MatchesPrevious(s.log, i);
      }
    }
  }

  lemma {:induction false} Located(c: Config, b: Which, i: nat)
    requires Separated(c) && i < ARG_COUNT
    ensures RegisterAt(c.At(b), c.At(b).msg) == Some(Msg)
    ensures RegisterAt(c.At(b), c.At(b).rsp) == Some(Rsp)
    ensures RegisterAt(c.At(b), c.At(b).arg + i * 4) == Some(Arg(i))
    ensures b == Rsmu ==> RegisterAt(c.mp1, c.rsmu.msg) == RegisterAt(c.mp1, c.rsmu.rsp)
                          == RegisterAt(c.mp1, c.rsmu.arg + i * 4) == None
  {
  }

  lemma {:induction false} StoreAt(w: World, b: Which, r: Register, v: Word)
    requires Separated(w.cfg) && (r.Arg? ==> r.i < ARG_COUNT)
    ensures
      var m := w.cfg.At(b);
      var addr := match r case Msg => m.msg case Rsp => m.rsp case Arg(i) => m.arg + i * 4;
      && Load(w, addr) == LoadBox(w.At(b), r)
      && Store(w, addr, v) == w.With(b, StoreBox(w.At(b), r, v))
  {
    Located(w.cfg, b, if r.Arg? then r.i else 0);
  }

  function Address(m: Mailbox, r: Register): nat {
    match r case Msg => m.msg case Rsp => m.rsp case Arg(i) => m.arg + i * 4
  }

  lemma {:induction false} LaterTransitive(s: Box, m: Box, t: Box)
    requires Later(s, m) && Later(m, t)
    ensures Later(s, t)
  {
  }

  lemma LaterSame(s: Box)
    ensures Later(s, s)
  {
  }

  /** A host read shows the register in a state the firmware may have reached meanwhile. */
  lemma {:induction false} ReadLater(w: World, b: Which, r: Register)
    requires Separated(w.cfg) && (r.Arg? ==> r.i < ARG_COUNT)
    ensures
      var (w', v) := SmnRead(w, Address(w.cfg.At(b), r));
      && w'.cfg == w.cfg && w'.polls == w.polls
      && Later(w.At(b), w'.At(b))
      && (v.Some? ==> v.value == LoadBox(w'.At(b), r))
  {
    hide Turn, Load, Store, Later;
    var addr := Address(w.cfg.At(b), r);
    TurnLater(w, b);
    var w1 := WriteIndex(w, addr);
    TurnLater(w1, b);
    LaterTransitive(w.At(b), w1.At(b), Turn(w1).At(b));
    StoreAt(Turn(w1), b, r, 0);
  }

  /** A host write to an idle mailbox changes that one register, or nothing if it fails. */
  lemma {:induction false} WriteIdle(w: World, b: Which, r: Register, v: Word)
    requires Separated(w.cfg) && (r.Arg? ==> r.i < ARG_COUNT)
    requires w.At(b).pending.None?
    ensures
      var (w', ok) := SmnWrite(w, Address(w.cfg.At(b), r), v);
      && w'.cfg == w.cfg && w'.polls == w.polls
      && w'.At(b) == if ok then StoreBox(w.At(b), r, v) else w.At(b)
  {
    hide Turn, Load, Store;
    var addr := Address(w.cfg.At(b), r);
    TurnLater(w, b);
    var w1 := WriteIndex(w, addr);
    TurnLater(w1, b);
    StoreAt(Turn(w1), b, r, v);
  }

  /** Polling shows a non-zero RSP of a state the firmware reached, within its limit. */
  lemma {:induction false} PollLater(w: World, b: Which, left: nat)
    requires Separated(w.cfg)
    ensures
      var (w', v) := Poll(w, w.cfg.At(b).rsp, left);
      && w'.cfg == w.cfg && w.polls <= w'.polls <= w.polls + left
      && Later(w.At(b), w'.At(b))
      && (v.Some? ==> v.value == w'.At(b).rsp != 0)
    decreases left
  {
    hide Later, SmnRead;
    if left > 0 {
      var w0 := w.(polls := w.polls + 1);
      var (w1, v) := SmnRead(w0, w.cfg.At(b).rsp);
      ReadLater(w0, b, Rsp);
      if v.Some? && v.value == 0 {
        PollLater(w1, b, left - 1);
        LaterTransitive(w.At(b), w1.At(b), Poll(w1, w.cfg.At(b).rsp, left - 1).0.At(b));
      }
    } else {
      LaterSame(w.At(b));
    }
  }

  /** The ARG registers hold the first n arguments (at most 6 are sent). */
  predicate Holds(regs: Args, args: seq<Word>, n: nat) {
    forall k :: 0 <= k < n && k < |args| && k < ARG_COUNT ==> regs[k] == args[k]
  }

  lemma {:induction false} WriteArgsIdle(w: World, b: Which, args: seq<Word>, i: nat)
    requires Separated(w.cfg) && w.At(b).pending.None?
    requires Holds(w.At(b).args, args, i)
    ensures
      var (w', ok) := WriteArgs(w, w.cfg.At(b).arg, args, i);
      && w'.cfg == w.cfg && w'.polls == w.polls
      && w'.At(b) == w.At(b).(args := w'.At(b).args)
      && (ok ==> Holds(w'.At(b).args, args, |args|))
    decreases |args| - i
  {
    hide SmnWrite;
    if i < |args| && i < ARG_COUNT {
      WriteIdle(w, b, Arg(i), args[i]);
      var (w1, ok) := SmnWrite(w, w.cfg.At(b).arg + i * 4, args[i]);
      if ok {
        WriteArgsIdle(w1, b, args, i + 1);
      }
    }
  }

  // ---- One command --------------------------------------------------------------------

  /** `after` is `start` with this command, sent with these arguments, and its own answer. */
  ghost predicate Answers(start: Box, after: Box, cmd: Word, sent: Args, reply: Reply) {
    after == Box(reply.rsp, reply.args, None,
                 start.log + [Issued(cmd, sent, false)] + [Answered(cmd, sent, reply)])
  }

  /** The mailbox went from `before` to `after` by exactly this: an answer to an earlier,
      timed-out command if one was still pending, then this command, with these arguments
      and while no other was pending, and the answer `rsp` to it. */
  ghost predicate Paired(before: Box, after: Box, cmd: Word, args: seq<Word>, rsp: Word) {
    exists start: Box, sent: Args, reply: Reply ::
      && Later(before, start) && start.pending.None?
      && Holds(sent, args, |args|)
      && reply.rsp == rsp
      && Answers(start, after, cmd, sent, reply)
  }

  /** What Ask does once RSP is 0 and the arguments are in place. */
  lemma {:induction false} AskAnswers(w: World, b: Which, cmd: Word, cleared: bool)
    requires Separated(w.cfg) && w.At(b).pending.None? && w.At(b).rsp == 0
    ensures
      var r := Ask(w, w.cfg.At(b), cmd, cleared);
      && (Orderly(w.At(b)) ==> Sound(r.w.At(b)))
      && (r.rsp != 0 ==>
            exists reply: Reply :: reply.rsp == r.rsp && Answers(w.At(b), r.w.At(b), cmd, w.At(b).args, reply))
  {
    hide SmnWrite, Poll, Orderly;
    WriteIdle(w, b, Msg, cmd);
    var (w1, ok) := SmnWrite(w, w.cfg.At(b).msg, cmd);
    if ok {
      PollLater(w1, b, SMU_TIMEOUT);
      var (w2, v) := Poll(w1, w.cfg.At(b).rsp, SMU_TIMEOUT);
      if Orderly(w.At(b)) {
        IssueSound(w.At(b), cmd);
        LaterSound(w1.At(b), w2.At(b));
      }
      if v.Some? {
        var reply: Reply :| w2.At(b) == w1.At(b).Finish(reply);
        assert Answers(w.At(b), w2.At(b), cmd, w.At(b).args, reply);
      }
    }
  }

  lemma {:induction false} AskPolls(w: World, b: Which, cmd: Word, cleared: bool)
    requires Separated(w.cfg) && w.At(b).pending.None?
    ensures
      var r := Ask(w, w.cfg.At(b), cmd, cleared);
      r.w.cfg == w.cfg && r.w.polls <= w.polls + SMU_TIMEOUT && r.cleared == cleared
  {
    hide SmnWrite, Poll;
    WriteIdle(w, b, Msg, cmd);
    PollLater(SmnWrite(w, w.cfg.At(b).msg, cmd).0, b, SMU_TIMEOUT);
  }

  /** One call, from any mailbox whose RSP is 0 while it is busy, over any interleaving and any
      failures: if the clear of RSP took effect, a non-zero result is the firmware's answer to the
      command just sent with the arguments just written, and a sound mailbox stays sound. */
  lemma {:induction false} SendIsPaired(w: World, b: Which, cmd: Word, args: seq<Word>)
    requires Separated(w.cfg) && Coherent(w.At(b))
    ensures
      var r := Send(w, w.cfg.At(b), cmd, args);
      r.cleared ==>
        && r.w.cfg == w.cfg
        && (Sound(w.At(b)) ==> Sound(r.w.At(b)))
        && (r.rsp != 0 ==> Paired(w.At(b), r.w.At(b), cmd, args, r.rsp))
  {
    hide SmnWrite, Poll, WriteArgs, Ask, Orderly, Later;
    var m := w.cfg.At(b);
    PollLater(w, b, SMU_TIMEOUT);
    var (w1, ready) := Poll(w, m.rsp, SMU_TIMEOUT);
    if Sound(w.At(b)) {
      LaterSound(w.At(b), w1.At(b));
    }
    if ready.Some? {
      LaterCoherent(w.At(b), w1.At(b));
      WriteIdle(w1, b, Rsp, 0);
      var (w2, cleared) := SmnWrite(w1, m.rsp, 0);
      WriteArgsIdle(w2, b, args, 0);
      var (w3, ok) := WriteArgs(w2, m.arg, args, 0);
      if Sound(w.At(b)) {
        IdleSound(w1.At(b), w3.At(b));
      }
      if ok && cleared {
        AskAnswers(w3, b, cmd, cleared);
        AskPolls(w3, b, cmd, cleared);
        var r := Ask(w3, m, cmd, cleared);
        if r.rsp != 0 {
          var reply: Reply :| reply.rsp == r.rsp && Answers(w3.At(b), r.w.At(b), cmd, w3.At(b).args, reply);
          assert Answers(w1.At(b), r.w.At(b), cmd, w3.At(b).args, reply);
        }
      } else if ok {
        AskPolls(w3, b, cmd, cleared);
      }
    }
  }

  lemma SoundIsCoherent(s: Box)
    requires Sound(s)
    ensures Coherent(s)
  {
  }

  lemma LaterCoherent(s: Box, t: Box)
    requires Later(s, t) && Coherent(s)
    ensures Coherent(t)
  {
  }

  lemma {:induction false} IdleSound(s: Box, t: Box)
    requires Orderly(s) && s.pending.None? && t.pending.None? && t.log == s.log
    ensures Sound(t)
  {
  }

  lemma {:induction false} PollCount(w: World, addr: nat, left: nat)
    ensures Poll(w, addr, left).0.polls <= w.polls + left
    decreases left
  {
    hide Turn, Load;
    if left > 0 {
      var w0 := w.(polls := w.polls + 1);
      TurnLater(w0, Mp1);
      TurnLater(WriteIndex(w0, addr), Mp1);
      var (w1, v) := SmnRead(w0, addr);
      if v.Some? && v.value == 0 {
        PollCount(w1, addr, left - 1);
      }
    }
  }

  lemma {:induction false} WriteKeepsPolls(w: World, addr: nat, v: Word)
    ensures SmnWrite(w, addr, v).0.polls == w.polls
  {
    hide Turn, RegisterAt, StoreBox;
    TurnLater(w, Mp1);
    TurnLater(WriteIndex(w, addr), Mp1);
  }

  lemma {:induction false} WriteArgsKeepsPolls(w: World, addr: nat, args: seq<Word>, i: nat)
    ensures WriteArgs(w, addr, args, i).0.polls == w.polls
    decreases |args| - i
  {
    hide SmnWrite;
    if i < |args| && i < ARG_COUNT {
      WriteKeepsPolls(w, addr + i * 4, args[i]);
      var (w1, ok) := SmnWrite(w, addr + i * 4, args[i]);
      if ok {
        WriteArgsKeepsPolls(w1, addr, args, i + 1);
      }
    }
  }

  /** Every call, from any state whatever, polls RSP at most 2 * 10000 times. */
  lemma {:induction false} SendPolls(w: World, m: Mailbox, cmd: Word, args: seq<Word>)
    ensures Send(w, m, cmd, args).w.polls <= w.polls + 20000
  {
    hide SmnWrite, Poll, WriteArgs;
    PollCount(w, m.rsp, SMU_TIMEOUT);
    var (w1, ready) := Poll(w, m.rsp, SMU_TIMEOUT);
    WriteKeepsPolls(w1, m.rsp, 0);
    var (w2, cleared) := SmnWrite(w1, m.rsp, 0);
    WriteArgsKeepsPolls(w2, m.arg, args, 0);
    var (w3, ok) := WriteArgs(w2, m.arg, args, 0);
    WriteKeepsPolls(w3, m.msg, cmd);
    PollCount(SmnWrite(w3, m.msg, cmd).0, m.rsp, SMU_TIMEOUT);
  }

  // ---- The other mailbox ----------------------------------------------------------------

  lemma {:induction false} WriteOther(w: World, b: Which, c: Which, r: Register, v: Word)
    requires Separated(w.cfg) && (r.Arg? ==> r.i < ARG_COUNT) && b != c
    ensures
      var (w', ok) := SmnWrite(w, Address(w.cfg.At(b), r), v);
      w'.cfg == w.cfg && Later(w.At(c), w'.At(c))
  {
    hide Turn, Load, Store, Later;
    TurnLater(w, c);
    var w1 := WriteIndex(w, Address(w.cfg.At(b), r));
    TurnLater(w1, c);
    LaterTransitive(w.At(c), w1.At(c), Turn(w1).At(c));
    StoreAt(Turn(w1), b, r, v);
  }

  lemma {:induction false} ReadOther(w: World, addr: nat, c: Which)
    ensures
      var (w', v) := SmnRead(w, addr);
      w'.cfg == w.cfg && Later(w.At(c), w'.At(c))
  {
    hide Turn, Load, Later;
    TurnLater(w, c);
    var w1 := WriteIndex(w, addr);
    TurnLater(w1, c);
    LaterTransitive(w.At(c), w1.At(c), Turn(w1).At(c));
  }

  lemma {:induction false} PollOther(w: World, addr: nat, left: nat, c: Which)
    ensures Poll(w, addr, left).0.cfg == w.cfg && Later(w.At(c), Poll(w, addr, left).0.At(c))
    decreases left
  {
    hide SmnRead, Later;
    LaterSame(w.At(c));
    if left > 0 {
      var w0 := w.(polls := w.polls + 1);
      var (w1, v) := SmnRead(w0, addr);
      ReadOther(w0, addr, c);
      if v.Some? && v.value == 0 {
        PollOther(w1, addr, left - 1, c);
        LaterTransitive(w.At(c), w1.At(c), Poll(w1, addr, left - 1).0.At(c));
      }
    }
  }

  lemma {:induction false} WriteArgsOther(w: World, b: Which, c: Which, args: seq<Word>, i: nat)
    requires Separated(w.cfg) && b != c
    ensures
      var (w', ok) := WriteArgs(w, w.cfg.At(b).arg, args, i);
      w'.cfg == w.cfg && Later(w.At(c), w'.At(c))
    decreases |args| - i
  {
    hide SmnWrite, Later;
    LaterSame(w.At(c));
    if i < |args| && i < ARG_COUNT {
      WriteOther(w, b, c, Arg(i), args[i]);
      var (w1, ok) := SmnWrite(w, w.cfg.At(b).arg + i * 4, args[i]);
      if ok {
        WriteArgsOther(w1, b, c, args, i + 1);
        LaterTransitive(w.At(c), w1.At(c), WriteArgs(w1, w.cfg.At(b).arg, args, i + 1).0.At(c));
      }
    }
  }

  /** A call on one mailbox does nothing to the other. */
  lemma {:induction false} SendOther(w: World, b: Which, c: Which, cmd: Word, args: seq<Word>)
    requires Separated(w.cfg) && b != c
    ensures Later(w.At(c), Send(w, w.cfg.At(b), cmd, args).w.At(c))
  {
    hide SmnWrite, Poll, WriteArgs, Later;
    var m := w.cfg.At(b);
    PollOther(w, m.rsp, SMU_TIMEOUT, c);
    var (w1, ready) := Poll(w, m.rsp, SMU_TIMEOUT);
    if ready.Some? {
      WriteOther(w1, b, c, Rsp, 0);
      var (w2, cleared) := SmnWrite(w1, m.rsp, 0);
      LaterTransitive(w.At(c), w1.At(c), w2.At(c));
      WriteArgsOther(w2, b, c, args, 0);
      var (w3, ok) := WriteArgs(w2, m.arg, args, 0);
      LaterTransitive(w.At(c), w2.At(c), w3.At(c));
      if ok {
        WriteOther(w3, b, c, Msg, cmd);
        var (w4, sent) := SmnWrite(w3, m.msg, cmd);
        LaterTransitive(w.At(c), w3.At(c), w4.At(c));
        PollOther(w4, m.rsp, SMU_TIMEOUT, c);
        LaterTransitive(w.At(c), w4.At(c), Poll(w4, m.rsp, SMU_TIMEOUT).0.At(c));
      }
    }
  }

  // ---- Whole runs -----------------------------------------------------------------------

  datatype Request = Request(box: Which, cmd: Word, args: seq<Word>)

  function SendRequest(w: World, q: Request): Sent {
    Send(w, w.cfg.At(q.box), q.cmd, q.args)
  }

  /** The results of a series of calls, in order. */
  function Run(w: World, qs: seq<Request>): (rs: seq<Sent>)
    ensures |rs| == |qs|
    decreases |qs|
  {
    if qs == [] then []
    else var r := SendRequest(w, qs[0]); [r] + Run(r.w, qs[1..])
  }

  /** The world before the k-th call of a run. */
  function Before(w: World, qs: seq<Request>, k: nat): World
    requires k <= |qs|
  {
    if k == 0 then w else Run(w, qs)[k - 1].w
  }

  ghost predicate SoundWorld(w: World) {
    Separated(w.cfg) && Sound(w.mp1) && Sound(w.rsmu)
  }

  lemma {:induction false} SendKeepsSound(w: World, q: Request)
    requires SoundWorld(w) && SendRequest(w, q).cleared
    ensures SoundWorld(SendRequest(w, q).w)
  {
    hide Send, Sound, Later;
    var c := if q.box == Mp1 then Rsmu else Mp1;
    SoundIsCoherent(w.At(q.box));
    SendIsPaired(w, q.box, q.cmd, q.args);
    SendOther(w, q.box, c, q.cmd, q.args);
    LaterSound(w.At(c), SendRequest(w, q).w.At(c));
  }

  /** Over any series of calls on both mailboxes, including ones that timed out or failed, as
      long as no clear of RSP was lost: every non-zero result is the answer to its own
      command, and the histories are orderly at the end. */
  lemma {:induction false} RunIsPaired(w: World, qs: seq<Request>)
    requires SoundWorld(w)
    requires forall k :: 0 <= k < |qs| ==> Run(w, qs)[k].cleared
    ensures SoundWorld(Before(w, qs, |qs|))
    ensures forall k :: 0 <= k < |qs| && Run(w, qs)[k].rsp != 0 ==>
              Paired(Before(w, qs, k).At(qs[k].box), Run(w, qs)[k].w.At(qs[k].box),
                     qs[k].cmd, qs[k].args, Run(w, qs)[k].rsp)
    decreases |qs|
  {
    hide SendRequest, SoundWorld, Paired;
    if qs != [] {
      var q, r := qs[0], SendRequest(w, qs[0]);
      var rest := Run(r.w, qs[1..]);
      assert Run(w, qs)[0] == r;
      assert forall k :: 0 <= k < |rest| ==> Run(w, qs)[k + 1] == rest[k];
      SendKeepsSound(w, q);
      RequestIsPaired(w, q);
      assert forall k :: 0 <= k < |rest| ==> rest[k].cleared;
      RunIsPaired(r.w, qs[1..]);
      forall k | 0 <= k < |qs| && Run(w, qs)[k].rsp != 0
        ensures Paired(Before(w, qs, k).At(qs[k].box), Run(w, qs)[k].w.At(qs[k].box),
                       qs[k].cmd, qs[k].args, Run(w, qs)[k].rsp)
      {
        if k > 0 {
          assert rest[k - 1].rsp != 0;
          assert Before(w, qs, k) == Before(r.w, qs[1..], k - 1);
          assert qs[k] == qs[1..][k - 1];
        }
      }
      assert Before(w, qs, |qs|) == Before(r.w, qs[1..], |qs[1..]|);
    }
  }

  lemma {:induction false} RequestIsPaired(w: World, q: Request)
    requires SoundWorld(w) && SendRequest(w, q).cleared
    ensures
      var r := SendRequest(w, q);
      r.rsp != 0 ==> Paired(w.At(q.box), r.w.At(q.box), q.cmd, q.args, r.rsp)
  {
    SendIsPaired(w, q.box, q.cmd, q.args);
  }

  // ---- A mailbox that can no longer answer ------------------------------------------------

  /** Idle with RSP at 0: what a failed ARG or MSG write leaves after the clear. */
  predicate Wedged(s: Box) {
    s.pending.None? && s.rsp == 0
  }

  /** A wedged mailbox refuses every command, whatever the firmware and the bus do, and stays so. */
  lemma {:induction false} WedgedRefuses(w: World, b: Which, cmd: Word, args: seq<Word>)
    requires Separated(w.cfg) && Wedged(w.At(b))
    ensures
      var r := Send(w, w.cfg.At(b), cmd, args);
      r.rsp == 0 && r.w.At(b) == w.At(b) && r.w.cfg == w.cfg
  {
    hide Poll;
    PollLater(w, b, SMU_TIMEOUT);
  }

  /** A call that clears RSP and then fails to write an argument, or to write MSG, wedges the mailbox. */
  lemma {:induction false} FailedWriteWedges(w: World, b: Which, cmd: Word, args: seq<Word>)
    requires Separated(w.cfg) && Coherent(w.At(b))
    ensures
      var m := w.cfg.At(b);
      var (w1, ready) := Poll(w, m.rsp, SMU_TIMEOUT);
      var (w2, cleared) := SmnWrite(w1, m.rsp, 0);
      var (w3, ok) := WriteArgs(w2, m.arg, args, 0);
      ready.Some? && cleared && (!ok || !SmnWrite(w3, m.msg, cmd).1) ==>
        Send(w, m, cmd, args).rsp == 0 && Wedged(Send(w, m, cmd, args).w.At(b))
  {
    hide Poll, SmnWrite, WriteArgs;
    var m := w.cfg.At(b);
    PollLater(w, b, SMU_TIMEOUT);
    var (w1, ready) := Poll(w, m.rsp, SMU_TIMEOUT);
    if ready.Some? {
      WriteIdle(w1, b, Rsp, 0);
      var w2 := SmnWrite(w1, m.rsp, 0).0;
      WriteArgsIdle(w2, b, args, 0);
      WriteIdle(WriteArgs(w2, m.arg, args, 0).0, b, Msg, cmd);
    }
  }

  // ---- The payload of an answer ----------------------------------------------------------

  lemma {:induction false} ReadIdle(w: World, b: Which, i: nat)
    requires Separated(w.cfg) && w.At(b).pending.None? && i < ARG_COUNT
    ensures
      var (w', v) := SmnRead(w, w.cfg.At(b).arg + i * 4);
      && w'.cfg == w.cfg && w'.At(b) == w.At(b)
      && (v.Some? ==> v.value == w.At(b).args[i])
  {
    hide SmnRead;
    ReadLater(w, b, Arg(i));
  }

  // The two reads that follow the answer to a DRAM base request.

  function BaseAnswer(w: World): World {
    Send(w, w.cfg.rsmu, w.cfg.cmdGetDramBase, []).w
  }

  function LoRead(w: World): Option<Word> {
    SmnRead(BaseAnswer(w), w.cfg.rsmu.arg).1
  }

  function HiRead(w: World): Option<Word> {
    SmnRead(SmnRead(BaseAnswer(w), w.cfg.rsmu.arg).0, w.cfg.rsmu.arg + 4).1
  }

  /** A DRAM base is made of the two ARG registers of one answer, namely the answer of 1 to this very
      request; without one it is 0. A half whose read failed counts as 0, so the base is that answer's
      64-bit value if and only if no non-zero half was lost. */
  lemma {:induction false} DramBaseIsAnswer(w: World)
    requires Separated(w.cfg) && Coherent(w.rsmu)
    requires Send(w, w.cfg.rsmu, w.cfg.cmdGetDramBase, []).cleared
    ensures
      var r := Send(w, w.cfg.rsmu, w.cfg.cmdGetDramBase, []);
      var lo: int, hi: int := r.w.rsmu.args[0], r.w.rsmu.args[1];
      if r.rsp != 1 then GetDramBase(w).1 == 0
      else
        && Paired(w.rsmu, r.w.rsmu, w.cfg.cmdGetDramBase, [], 1) && GetDramBase(w).0.rsmu == r.w.rsmu
        && GetDramBase(w).1 == (if HiRead(w).Some? then hi * 0x1_0000_0000 else 0)
                               + (if LoRead(w).Some? then lo else 0)
        && (GetDramBase(w).1 == hi * 0x1_0000_0000 + lo
            <==> (LoRead(w).Some? || lo == 0) && (HiRead(w).Some? || hi == 0))
  {
    hide Send, SmnRead, Sound, Paired;
    assert w.At(Rsmu) == w.rsmu && w.cfg.At(Rsmu) == w.cfg.rsmu;
    var r := Send(w, w.cfg.rsmu, w.cfg.cmdGetDramBase, []);
    if r.rsp == 1 {
      SendIsPaired(w, Rsmu, w.cfg.cmdGetDramBase, []);
      PairedIsIdle(w.rsmu, r.w.rsmu, w.cfg.cmdGetDramBase, [], 1);
      assert r.w.At(Rsmu) == r.w.rsmu && r.w.cfg == w.cfg;
      ReadIdle(r.w, Rsmu, 0);
      var w1 := SmnRead(r.w, w.cfg.rsmu.arg).0;
      assert w1.At(Rsmu) == w1.rsmu;
      ReadIdle(w1, Rsmu, 1);
      assert SmnRead(w1, w.cfg.rsmu.arg + 4).0.At(Rsmu) == SmnRead(w1, w.cfg.rsmu.arg + 4).0.rsmu;
    }
  }

  lemma PairedIsIdle(before: Box, after: Box, cmd: Word, args: seq<Word>, rsp: Word)
    requires Paired(before, after, cmd, args, rsp)
    ensures after.pending.None? && after.rsp == rsp
  {
  }

  /** A version is the first ARG register of the answer of 1 to this request; without such an answer, or
      if that register cannot be read, it is 0. */
  lemma {:induction false} VersionIsAnswer(w: World, b: Which, cmd: Word)
    requires Separated(w.cfg) && Coherent(w.At(b))
    requires Send(w, w.cfg.At(b), cmd, []).cleared
    ensures
      var r := Send(w, w.cfg.At(b), cmd, []);
      var version := GetVersion(w, w.cfg.At(b), cmd).1;
      if r.rsp != 1 then version == 0
      else
        && Paired(w.At(b), r.w.At(b), cmd, [], 1)
        && version == if SmnRead(r.w, w.cfg.At(b).arg).1.Some? then r.w.At(b).args[0] else 0
  {
    hide Send, SmnRead, Sound, Paired;
    var r := Send(w, w.cfg.At(b), cmd, []);
    if r.rsp == 1 {
      SendIsPaired(w, b, cmd, []);
      PairedIsIdle(w.At(b), r.w.At(b), cmd, [], 1);
      ReadIdle(r.w, b, 0);
    }
  }

  /** A table transfer is reported exactly if it was answered with 1, and then the firmware executed this
      transfer with the configured argument. */
  lemma {:induction false} TransferIsAnswer(w: World)
    requires Separated(w.cfg) && Coherent(w.rsmu)
    requires Send(w, w.cfg.rsmu, w.cfg.cmdTransferToDram, [w.cfg.cmdTransferArg0]).cleared
    ensures TransferTable(w).1
            <==> Send(w, w.cfg.rsmu, w.cfg.cmdTransferToDram, [w.cfg.cmdTransferArg0]).rsp == 1
    ensures TransferTable(w).1 ==>
              && Paired(w.rsmu, TransferTable(w).0.rsmu, w.cfg.cmdTransferToDram, [w.cfg.cmdTransferArg0], 1)
              && TransferTable(w).0.rsmu.log != []
              && var last := TransferTable(w).0.rsmu.log[|TransferTable(w).0.rsmu.log| - 1];
                 last.Answered? && last.cmd == w.cfg.cmdTransferToDram && last.args[0] == w.cfg.cmdTransferArg0
  {
    hide Send, Sound;
    assert w.At(Rsmu) == w.rsmu && w.cfg.At(Rsmu) == w.cfg.rsmu;
    SendIsPaired(w, Rsmu, w.cfg.cmdTransferToDram, [w.cfg.cmdTransferArg0]);
    assert TransferTable(w).0.At(Rsmu) == TransferTable(w).0.rsmu;
  }
}
