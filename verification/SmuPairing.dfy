/** Exactly when the result of a mailbox command is the answer to it: over every state of the
    mailbox, every pattern of failing accesses and every timing of the firmware. */
module SmuPairing {
  import opened Smu
  import opened SmuProperties
  import opened Wrappers
  import opened Sequences

  /** A result is faithful if it is 0 or the answer to the command just sent. */
  ghost predicate Faithful(w: World, b: Which, cmd: Word, args: seq<Word>) {
    var r := Send(w, w.cfg.At(b), cmd, args);
    r.rsp != 0 ==> Paired(w.At(b), r.w.At(b), cmd, args, r.rsp)
  }

  /** The result is faithful whenever the firmware acts. */
  ghost predicate AlwaysFaithful(w: World, b: Which, cmd: Word, args: seq<Word>) {
    forall fw :: Faithful(w.(fw := fw), b, cmd, args)
  }

  // ---- Scripts ---------------------------------------------------------------------------

  /** The next n accesses succeed. */
  predicate Works(io: seq<bool>, n: nat) {
    Starts(io, n, true)
  }

  /** The firmware does nothing before the next n accesses. */
  predicate Still(fw: seq<seq<Done>>, n: nat) {
    Starts(fw, n, [])
  }

  // ---- The condition ---------------------------------------------------------------------

  /** How many arguments are written */
  function Count(args: seq<Word>): nat {
    if |args| < ARG_COUNT then |args| else ARG_COUNT
  }

  /** How many polls the first loop can need until it sees a non-zero RSP: none helps a wedged
      mailbox, one is enough if RSP is non-zero, and a busy firmware may answer at any time. */
  function Polls(s: Box): nat {
    if Wedged(s) then 0 else if s.rsp != 0 then 1 else 10000
  }

  /** What is left of the script behind the write of 0 to RSP. */
  function AfterClear(io: seq<bool>): seq<bool> {
    if Works(io, 1) then Drop(io, 2) else Drop(io, 1)
  }

  /** The k-th poll ends the first loop; the clear behind it fails, or an earlier command is still
      pending behind a non-zero RSP, so that the clear comes too early; and every access from the
      arguments to the first poll for the answer succeeds. */
  predicate Astray(s: Box, io: seq<bool>, k: nat, args: seq<Word>) {
    && Works(io, 2 * k)
    && (Works(Drop(io, 2 * k), 2) ==> !Coherent(s))
    && Works(AfterClear(Drop(io, 2 * k)), 2 * Count(args) + 4)
  }

  ghost predicate Exposed(s: Box, io: seq<bool>, args: seq<Word>) {
    exists k :: 1 <= k <= Polls(s) && Astray(s, io, k, args)
  }

  // ---- What a call consumes of the script ---------------------------------------------------

  lemma TurnIo(w: World)
    ensures Turn(w).io == Drop(w.io, 1) && (Succeeds(w) <==> Works(w.io, 1))
  {
    if w.fw != [] {
      FinishAllLater(w, w.fw[0], Mp1);
    }
  }

  lemma ReadIo(w: World, addr: nat)
    ensures SmnRead(w, addr).1.Some? ==> Works(w.io, 2) && SmnRead(w, addr).0.io == Drop(w.io, 2)
  {
    hide Turn, Load;
    TurnIo(w);
    TurnIo(WriteIndex(w, addr));
    StartsParts(w.io, 1, 1, true);
    DropDrop(w.io, 1, 1);
  }

  lemma StoreIo(w: World, addr: nat, v: Word)
    ensures Store(w, addr, v).io == w.io && Store(w, addr, v).fw == w.fw
  {
  }

  lemma WriteIo(w: World, addr: nat, v: Word)
    ensures SmnWrite(w, addr, v).1 <==> Works(w.io, 2)
    ensures SmnWrite(w, addr, v).0.io == AfterClear(w.io)
  {
    hide Turn, Store;
    TurnIo(w);
    var w1 := WriteIndex(w, addr);
    TurnIo(w1);
    StoreIo(Turn(w1), Turn(w1).index, v);
    StartsParts(w.io, 1, 1, true);
    DropDrop(w.io, 1, 1);
  }

  lemma AfterWorking(io: seq<bool>)
    requires Works(io, 2)
    ensures AfterClear(io) == Drop(io, 2)
  {
    StartsParts(io, 1, 1, true);
  }

  lemma {:induction false} ArgsIo(w: World, addr: nat, args: seq<Word>, i: nat)
    requires i <= Count(args) && WriteArgs(w, addr, args, i).1
    ensures Works(w.io, 2 * (Count(args) - i))
    ensures WriteArgs(w, addr, args, i).0.io == Drop(w.io, 2 * (Count(args) - i))
    decreases |args| - i
  {
    hide SmnWrite, Works, AfterClear;
    if i < Count(args) {
      WriteIo(w, addr + i * 4, args[i]);
      AfterWorking(w.io);
      ArgsIo(SmnWrite(w, addr + i * 4, args[i]).0, addr, args, i + 1);
      WorksParts(w.io, 2, 2 * (Count(args) - i - 1));
      DropDrop(w.io, 2, 2 * (Count(args) - i - 1));
    } else {
      NoAccess(w.io);
    }
  }

  lemma NoAccess(io: seq<bool>)
    ensures Works(io, 0) && Drop(io, 0) == io
  {
  }

  lemma WorksParts(io: seq<bool>, m: nat, n: nat)
    ensures Works(io, m + n) <==> Works(io, m) && Works(Drop(io, m), n)
  {
    StartsParts(io, m, n, true);
  }

  lemma {:induction false} PollIo(w: World, addr: nat, left: nat) returns (k: nat)
    requires Poll(w, addr, left).1.Some?
    ensures 1 <= k <= left && Works(w.io, 2 * k) && Poll(w, addr, left).0.io == Drop(w.io, 2 * k)
    decreases left
  {
    hide SmnRead, Works;
    var w0 := w.(polls := w.polls + 1);
    ReadIo(w0, addr);
    var (w1, v) := SmnRead(w0, addr);
    if v.value != 0 {
      return 1;
    }
    k := PollIo(w1, addr, left - 1);
    WorksParts(w.io, 2, 2 * k);
    DropDrop(w.io, 2, 2 * k);
    k := k + 1;
  }

  /** The polls that were needed are ones that can be needed. */
  lemma PollsNeeded(w: World, b: Which) returns (k: nat)
    requires Separated(w.cfg) && Poll(w, w.cfg.At(b).rsp, SMU_TIMEOUT).1.Some?
    ensures 1 <= k <= Polls(w.At(b)) && Works(w.io, 2 * k)
    ensures Poll(w, w.cfg.At(b).rsp, SMU_TIMEOUT).0.io == Drop(w.io, 2 * k)
  {
    hide SmnRead, Works, Later;
    var addr := w.cfg.At(b).rsp;
    k := PollIo(w, addr, SMU_TIMEOUT);
    if w.At(b).rsp != 0 {
      var w0 := w.(polls := w.polls + 1);
      ReadLater(w0, b, Rsp);
      ReadIo(w0, addr);
      var (w1, v) := SmnRead(w0, addr);
      if v.value == 0 {
        FinishedAtZero(w.At(b), w1.At(b));
        PollLater(w1, b, SMU_TIMEOUT - 1);
        WedgedStays(w1.At(b), Poll(w1, addr, SMU_TIMEOUT - 1).0.At(b));
      }
      k := 1;
    } else if Wedged(w.At(b)) {
      PollLater(w, b, SMU_TIMEOUT);
      WedgedStays(w.At(b), Poll(w, addr, SMU_TIMEOUT).0.At(b));
    }
  }

  lemma FinishedAtZero(s: Box, t: Box)
    requires Later(s, t) && s.rsp != 0 && t.rsp == 0
    ensures Wedged(t)
  {
  }

  lemma WedgedStays(s: Box, t: Box)
    requires Later(s, t) && Wedged(s)
    ensures t == s
  {
  }

  // ---- Not exposed: the result is right ------------------------------------------------------

  /** Everything behind the clear */
  function Tail(w: World, m: Mailbox, cmd: Word, args: seq<Word>, cleared: bool): Sent {
    var (w1, ok) := WriteArgs(w, m.arg, args, 0);
    if !ok then Sent(w1, 0, cleared) else Ask(w1, m, cmd, cleared)
  }

  lemma TailIo(w: World, m: Mailbox, cmd: Word, args: seq<Word>, cleared: bool)
    requires Tail(w, m, cmd, args, cleared).rsp != 0
    ensures Works(w.io, 2 * Count(args) + 4)
  {
    hide WriteArgs, SmnWrite, Poll, Works, AfterClear;
    var n := 2 * Count(args);
    ArgsIo(w, m.arg, args, 0);
    var w1 := WriteArgs(w, m.arg, args, 0).0;
    WriteIo(w1, m.msg, cmd);
    AfterWorking(w1.io);
    var w2 := SmnWrite(w1, m.msg, cmd).0;
    var k := PollIo(w2, m.rsp, SMU_TIMEOUT);
    WorksParts(w2.io, 2, 2 * k - 2);
    WorksParts(w1.io, 2, 2);
    WorksParts(w.io, n, 4);
  }

  lemma SendInParts(w: World, m: Mailbox, cmd: Word, args: seq<Word>)
    ensures
      var r := Send(w, m, cmd, args);
      var (w1, ready) := Poll(w, m.rsp, SMU_TIMEOUT);
      var (w2, cleared) := SmnWrite(w1, m.rsp, 0);
      if ready.None? then r == Sent(w1, 0, true)
      else r == Tail(w2, m, cmd, args, cleared) && r.cleared == cleared
  {
    hide WriteArgs, SmnWrite, Poll;
  }

  lemma FaithfulIfNotExposed(w: World, b: Which, cmd: Word, args: seq<Word>)
    requires Separated(w.cfg) && !Exposed(w.At(b), w.io, args)
    ensures Faithful(w, b, cmd, args)
  {
    hide Send, Tail, Poll, SmnWrite, Works, AfterClear, Paired, Polls;
    var m := w.cfg.At(b);
    SendInParts(w, m, cmd, args);
    var r := Send(w, m, cmd, args);
    if r.rsp != 0 {
      var w1 := Poll(w, m.rsp, SMU_TIMEOUT).0;
      var k := PollsNeeded(w, b);
      WriteIo(w1, m.rsp, 0);
      var (w2, cleared) := SmnWrite(w1, m.rsp, 0);
      TailIo(w2, m, cmd, args, cleared);
      assert !Astray(w.At(b), w.io, k, args);
      SendIsPaired(w, b, cmd, args);
    }
  }

  // ---- Exposed: some timing makes the result wrong ---------------------------------------------

  /** n accesses over a working bus that the firmware leaves alone */
  predicate Moved(w: World, after: World, n: nat) {
    after.cfg == w.cfg && after.io == Drop(w.io, n) && after.fw == Drop(w.fw, n)
  }

  lemma TurnStill(w: World)
    requires Still(w.fw, 1)
    ensures Turn(w) == w.(io := Drop(w.io, 1), fw := Drop(w.fw, 1))
  {
  }

  lemma ReadStill(w: World, b: Which, r: Register)
    requires Separated(w.cfg) && (r.Arg? ==> r.i < ARG_COUNT)
    requires Works(w.io, 2) && Still(w.fw, 2)
    ensures
      var (w', v) := SmnRead(w, Address(w.cfg.At(b), r));
      v == Some(LoadBox(w.At(b), r)) && w'.At(b) == w.At(b) && Moved(w, w', 2)
  {
    hide Turn, Load, RegisterAt;
    var addr := Address(w.cfg.At(b), r);
    StartsParts(w.io, 1, 1, true);
    StartsParts(w.fw, 1, 1, []);
    TurnStill(w);
    var w1 := WriteIndex(w, addr);
    TurnStill(w1);
    DropDrop(w.io, 1, 1);
    DropDrop(w.fw, 1, 1);
    StoreAt(Turn(w1), b, r, 0);
  }

  lemma WriteStill(w: World, b: Which, r: Register, v: Word)
    requires Separated(w.cfg) && (r.Arg? ==> r.i < ARG_COUNT)
    requires Works(w.io, 2) && Still(w.fw, 2)
    ensures
      var (w', ok) := SmnWrite(w, Address(w.cfg.At(b), r), v);
      ok && w'.At(b) == StoreBox(w.At(b), r, v) && Moved(w, w', 2)
  {
    hide Turn, Load, Store, RegisterAt;
    var addr := Address(w.cfg.At(b), r);
    StartsParts(w.io, 1, 1, true);
    StartsParts(w.fw, 1, 1, []);
    TurnStill(w);
    var w1 := WriteIndex(w, addr);
    TurnStill(w1);
    DropDrop(w.io, 1, 1);
    DropDrop(w.fw, 1, 1);
    StoreAt(Turn(w1), b, r, v);
  }

  /** A write of which an access fails, next to an idle firmware script */
  lemma WriteFails(w: World, b: Which, addr: nat, v: Word)
    requires !Works(w.io, 2) && w.fw == []
    ensures
      var (w', ok) := SmnWrite(w, addr, v);
      !ok && w'.cfg == w.cfg && w'.fw == [] && w'.io == AfterClear(w.io) && w'.At(b) == w.At(b)
  {
    hide Store;
    StartsParts(w.io, 1, 1, true);
  }

  lemma PollStill(w: World, b: Which)
    requires Separated(w.cfg) && Works(w.io, 2) && Still(w.fw, 2) && w.At(b).rsp != 0
    ensures
      var (w', v) := Poll(w, w.cfg.At(b).rsp, SMU_TIMEOUT);
      v == Some(w.At(b).rsp) && w'.At(b) == w.At(b) && Moved(w, w', 2)
  {
    hide SmnRead;
    ReadStill(w.(polls := w.polls + 1), b, Rsp);
  }

  /** The ARG registers once the arguments are written (at most 6 are) */
  function Written(regs: Args, args: seq<Word>): Args {
    seq(ARG_COUNT, (k: nat) requires k < ARG_COUNT => if k < |args| then args[k] else regs[k])
  }

  lemma {:induction false} ArgsStill(w: World, b: Which, args: seq<Word>, i: nat)
    requires Separated(w.cfg) && i <= Count(args)
    requires Works(w.io, 2 * (Count(args) - i)) && Still(w.fw, 2 * (Count(args) - i))
    ensures
      var (w', ok) := WriteArgs(w, w.cfg.At(b).arg, args, i);
      && ok && Moved(w, w', 2 * (Count(args) - i))
      && w'.At(b) == w.At(b).(args := w'.At(b).args)
      && (forall k :: 0 <= k < ARG_COUNT ==>
            w'.At(b).args[k] == if i <= k < |args| then args[k] else w.At(b).args[k])
    decreases |args| - i
  {
    hide SmnWrite, Works, Still;
    if i < Count(args) {
      var left := 2 * (Count(args) - i - 1);
      WorksParts(w.io, 2, left);
      StillParts(w.fw, 2, left);
      WriteStill(w, b, Arg(i), args[i]);
      DropDrop(w.io, 2, left);
      DropDrop(w.fw, 2, left);
      ArgsStill(SmnWrite(w, w.cfg.At(b).arg + i * 4, args[i]).0, b, args, i + 1);
    }
  }

  lemma StillParts(fw: seq<seq<Done>>, m: nat, n: nat)
    ensures Still(fw, m + n) <==> Still(fw, m) && Still(Drop(fw, m), n)
  {
    StartsParts(fw, m, n, []);
  }

  /** With RSP non-zero behind the clear and nothing more from the firmware, the new command is
      issued and RSP taken for its answer. */
  lemma TailIsStale(w: World, b: Which, cmd: Word, args: seq<Word>, cleared: bool)
    requires Separated(w.cfg) && Works(w.io, 2 * Count(args) + 4) && w.fw == [] && w.At(b).rsp != 0
    ensures
      var r := Tail(w, w.cfg.At(b), cmd, args, cleared);
      && r.rsp == w.At(b).rsp == r.w.At(b).rsp && r.w.At(b).pending == Some(cmd)
      && Moved(w, r.w, 2 * Count(args) + 4)
  {
    hide WriteArgs, SmnWrite, Poll, Works;
    var n := 2 * Count(args);
    DropDrop(w.io, n, 4);
    DropDrop(Drop(w.io, n), 2, 2);
    WorksParts(w.io, n, 4);
    ArgsStill(w, b, args, 0);
    var w1 := WriteArgs(w, w.cfg.At(b).arg, args, 0).0;
    WorksParts(w1.io, 2, 2);
    WriteStill(w1, b, Msg, cmd);
    PollStill(SmnWrite(w1, w.cfg.At(b).msg, cmd).0, b);
  }

  lemma PendingIsUnfaithful(w: World, b: Which, cmd: Word, args: seq<Word>)
    requires Send(w, w.cfg.At(b), cmd, args).rsp != 0
    requires Send(w, w.cfg.At(b), cmd, args).w.At(b).pending.Some?
    ensures !Faithful(w, b, cmd, args)
  {
    hide Send;
  }

  /** The clear is lost on a ready mailbox and the firmware has not yet reacted: the old RSP is
      returned as the answer to the new command, and the mailbox is left poisoned, pending behind a
      non-zero RSP. */
  lemma LostClearIsStale(w: World, b: Which, cmd: Word, args: seq<Word>)
    requires Separated(w.cfg) && w.At(b).rsp != 0 && w.fw == []
    requires Works(w.io, 2) && !Works(Drop(w.io, 2), 2)
    requires Works(AfterClear(Drop(w.io, 2)), 2 * Count(args) + 4)
    ensures
      var r := Send(w, w.cfg.At(b), cmd, args);
      && !r.cleared && r.rsp == w.At(b).rsp && r.w.At(b).pending == Some(cmd)
      && !Coherent(r.w.At(b)) && !Faithful(w, b, cmd, args)
      && r.w.cfg == w.cfg && r.w.io == Drop(AfterClear(Drop(w.io, 2)), 2 * Count(args) + 4)
  {
    hide Send, Tail, Poll, SmnWrite, Works, AfterClear, Faithful;
    var m := w.cfg.At(b);
    SendInParts(w, m, cmd, args);
    PollStill(w, b);
    var w1 := Poll(w, m.rsp, SMU_TIMEOUT).0;
    WriteFails(w1, b, m.rsp, 0);
    TailIsStale(SmnWrite(w1, m.rsp, 0).0, b, cmd, args, false);
    PendingIsUnfaithful(w, b, cmd, args);
  }

  /** The firmware finishes just before the k-th poll. */
  function Delayed(k: nat, b: Which, reply: Reply): seq<seq<Done>>
    requires k >= 1
  {
    seq(2 * k - 2, _ => []) + [[Done(b, reply)]]
  }

  lemma TurnFinishes(w: World, b: Which, reply: Reply)
    requires w.fw != [] && w.fw[0] == [Done(b, reply)]
    ensures Turn(w) == w.With(b, w.At(b).Finish(reply)).(io := Drop(w.io, 1), fw := Drop(w.fw, 1))
  {
    var v := w.With(b, w.At(b).Finish(reply));
    assert FinishAll(w, w.fw[0]) == FinishAll(v, []) == v;
  }

  /** The firmware lets k - 1 polls pass and finishes just before the k-th. */
  predicate FinishesAt(fw: seq<seq<Done>>, k: nat, b: Which, reply: Reply)
    requires k >= 1
  {
    && |fw| > 2 * k - 2 && Still(fw, 2 * k - 2) && fw[2 * k - 2] == [Done(b, reply)]
    && Still(Drop(fw, 2 * k - 1), 1)
  }

  lemma ReadFinishes(w: World, b: Which, reply: Reply)
    requires Separated(w.cfg) && Works(w.io, 2) && FinishesAt(w.fw, 1, b, reply)
    ensures
      var (w', v) := SmnRead(w, w.cfg.At(b).rsp);
      v == Some(w'.At(b).rsp) && w'.At(b) == w.At(b).Finish(reply) && Moved(w, w', 2)
  {
    hide Turn, Load, RegisterAt;
    var addr := w.cfg.At(b).rsp;
    StartsParts(w.io, 1, 1, true);
    TurnFinishes(w, b, reply);
    var w1 := WriteIndex(w, addr);
    TurnStill(w1);
    DropDrop(w.io, 1, 1);
    DropDrop(w.fw, 1, 1);
    StoreAt(Turn(w1), b, Rsp, 0);
  }

  lemma {:induction false} PollDelayed(w: World, b: Which, k: nat, left: nat, reply: Reply)
    requires Separated(w.cfg) && w.At(b).pending.Some? && w.At(b).rsp == 0 && reply.rsp != 0
    requires 1 <= k <= left && Works(w.io, 2 * k) && FinishesAt(w.fw, k, b, reply)
    ensures
      var (w', v) := Poll(w, w.cfg.At(b).rsp, left);
      v == Some(reply.rsp) && w'.At(b) == w.At(b).Finish(reply) && Moved(w, w', 2 * k)
    decreases k
  {
    hide SmnRead, Works, Still, FinishesAt;
    var w0 := w.(polls := w.polls + 1);
    WorksParts(w.io, 2, 2 * k - 2);
    if k == 1 {
      ReadFinishes(w0, b, reply);
    } else {
      FinishesLater(w.fw, k, b, reply);
      ReadStill(w0, b, Rsp);
      var w1 := SmnRead(w0, w.cfg.At(b).rsp).0;
      DropDrop(w.io, 2, 2 * k - 2);
      DropDrop(w.fw, 2, 2 * k - 2);
      PollDelayed(w1, b, k - 1, left - 1, reply);
    }
  }

  lemma FinishesLater(fw: seq<seq<Done>>, k: nat, b: Which, reply: Reply)
    requires k > 1 && FinishesAt(fw, k, b, reply)
    ensures Still(fw, 2) && FinishesAt(Drop(fw, 2), k - 1, b, reply)
  {
    StillParts(fw, 2, 2 * k - 4);
    DropDrop(fw, 2, 2 * k - 3);
  }

  lemma DelayedFinishes(k: nat, b: Which, reply: Reply)
    requires k >= 1
    ensures FinishesAt(Delayed(k, b, reply), k, b, reply) && Drop(Delayed(k, b, reply), 2 * k) == []
  {
  }

  /** The same as LostClearIsStale behind a command that had timed out: the firmware answers that
      one while the call polls for the k-th time, and its RSP is returned as the new answer. */
  lemma LateAnswerIsStale(w: World, b: Which, cmd: Word, args: seq<Word>, k: nat, reply: Reply)
    requires Separated(w.cfg) && w.At(b).pending.Some? && w.At(b).rsp == 0 && reply.rsp != 0
    requires 1 <= k <= SMU_TIMEOUT && Works(w.io, 2 * k) && w.fw == Delayed(k, b, reply)
    requires !Works(Drop(w.io, 2 * k), 2)
    requires Works(AfterClear(Drop(w.io, 2 * k)), 2 * Count(args) + 4)
    ensures
      var r := Send(w, w.cfg.At(b), cmd, args);
      && !r.cleared && r.rsp == reply.rsp && r.w.At(b).pending == Some(cmd)
      && !Faithful(w, b, cmd, args)
  {
    hide Send, Tail, Poll, SmnWrite, Works, AfterClear, Faithful;
    var m := w.cfg.At(b);
    SendInParts(w, m, cmd, args);
    DelayedFinishes(k, b, reply);
    PollDelayed(w, b, k, SMU_TIMEOUT, reply);
    var w1 := Poll(w, m.rsp, SMU_TIMEOUT).0;
    WriteFails(w1, b, m.rsp, 0);
    TailIsStale(SmnWrite(w1, m.rsp, 0).0, b, cmd, args, false);
    PendingIsUnfaithful(w, b, cmd, args);
  }

  /** The firmware's last turn may as well come before the tail as in its first access. */
  lemma TailFinishes(w: World, b: Which, m: Mailbox, cmd: Word, args: seq<Word>, cleared: bool, reply: Reply)
    requires w.fw == [[Done(b, reply)]]
    ensures
      var v := w.With(b, w.At(b).Finish(reply)).(fw := []);
      Tail(w, m, cmd, args, cleared) == Tail(v, m, cmd, args, cleared)
  {
    hide Turn, Poll;
    var v := w.With(b, w.At(b).Finish(reply)).(fw := []);
    TurnFinishes(w, b, reply);
    TurnStill(v);
    assert Turn(w) == Turn(v);
  }

  /** A poisoned mailbox, pending behind a non-zero RSP as a lost clear leaves it: although the clear
      of this call succeeds, the firmware may answer the earlier command between the clear and the
      MSG write, and that answer is returned. */
  lemma PoisonedIsStale(w: World, b: Which, cmd: Word, args: seq<Word>, reply: Reply)
    requires Separated(w.cfg) && !Coherent(w.At(b)) && reply.rsp != 0
    requires Works(w.io, 2 * Count(args) + 8) && w.fw == [[], [], [], [], [Done(b, reply)]]
    ensures
      var r := Send(w, w.cfg.At(b), cmd, args);
      && r.cleared && r.rsp == reply.rsp && r.w.At(b).pending == Some(cmd)
      && !Faithful(w, b, cmd, args)
  {
    hide Send, Tail, Poll, SmnWrite, Works, Faithful;
    var m := w.cfg.At(b);
    WorksParts(w.io, 4, 2 * Count(args) + 4);
    WorksParts(w.io, 2, 2);
    DropDrop(w.io, 2, 2);
    SendInParts(w, m, cmd, args);
    PollStill(w, b);
    var w1 := Poll(w, m.rsp, SMU_TIMEOUT).0;
    assert w1.fw == [[], [], [Done(b, reply)]];
    WriteStill(w1, b, Rsp, 0);
    var w2 := SmnWrite(w1, m.rsp, 0).0;
    assert w2.fw == [[Done(b, reply)]];
    TailFinishes(w2, b, m, cmd, args, true, reply);
    TailIsStale(w2.With(b, w2.At(b).Finish(reply)).(fw := []), b, cmd, args, true);
    PendingIsUnfaithful(w, b, cmd, args);
  }

  const SOME_REPLY := Reply(1, [0, 0, 0, 0, 0, 0])

  lemma UnfaithfulIfExposed(w: World, b: Which, cmd: Word, args: seq<Word>, k: nat) returns (fw: seq<seq<Done>>)
    requires Separated(w.cfg) && 1 <= k <= Polls(w.At(b)) && Astray(w.At(b), w.io, k, args)
    ensures !Faithful(w.(fw := fw), b, cmd, args)
  {
    hide Works, Faithful, AfterClear;
    var rest := Drop(w.io, 2 * k);
    if Works(rest, 2) {
      AfterWorking(rest);
      WorksParts(rest, 2, 2 * Count(args) + 4);
      assert AfterClear(rest) == Drop(rest, 2);
      WorksParts(w.io, 2, 2 * Count(args) + 6);
      fw := [[], [], [], [], [Done(b, SOME_REPLY)]];
      PoisonedIsStale(w.(fw := fw), b, cmd, args, SOME_REPLY);
    } else if w.At(b).rsp != 0 {
      fw := [];
      LostClearIsStale(w.(fw := fw), b, cmd, args);
    } else {
      fw := Delayed(k, b, SOME_REPLY);
      LateAnswerIsStale(w.(fw := fw), b, cmd, args, k, SOME_REPLY);
    }
  }

  // ---- The theorem -------------------------------------------------------------------------

  /** For every state of the mailbox and every pattern of failing accesses: the result is faithful
      under every timing of the firmware if and only if no poll that can end the first loop is
      followed by a clear that fails, or by any clear of a poisoned mailbox, and then by accesses that
      all succeed up to the first poll for the answer. */
  lemma AlwaysFaithfulIff(w: World, b: Which, cmd: Word, args: seq<Word>)
    requires Separated(w.cfg)
    ensures AlwaysFaithful(w, b, cmd, args) <==> !Exposed(w.At(b), w.io, args)
  {
    hide Faithful, Astray;
    if k :| 1 <= k <= Polls(w.At(b)) && Astray(w.At(b), w.io, k, args) {
      var fw := UnfaithfulIfExposed(w, b, cmd, args, k);
      assert !Faithful(w.(fw := fw), b, cmd, args);
    } else {
      forall fw ensures Faithful(w.(fw := fw), b, cmd, args) {
        assert w.(fw := fw).At(b) == w.At(b);
        FaithfulIfNotExposed(w.(fw := fw), b, cmd, args);
      }
    }
  }

  lemma ClearOutcome(clear: seq<bool>)
    requires clear in {[true, true], [false], [true, false]}
    ensures (Works(clear, 2) <==> clear == [true, true]) && AfterClear(clear) == []
  {
    assert clear == [true, true] || !clear[0] || (|clear| == 2 && !clear[1]);
  }

  /** When only the first clear is in doubt: from every state, results are faithful under every timing
      if and only if the mailbox is wedged, or it is not poisoned and the clear, whose outcome the
      code ignores, succeeds. */
  lemma PairingIffCleared(w: World, b: Which, cmd: Word, args: seq<Word>, clear: seq<bool>)
    requires Separated(w.cfg)
    requires clear in {[true, true], [false], [true, false]} && w.io == [true, true] + clear
    ensures AlwaysFaithful(w, b, cmd, args) <==>
              Wedged(w.At(b)) || (Coherent(w.At(b)) && clear == [true, true])
  {
    hide AlwaysFaithful;
    var s := w.At(b);
    AlwaysFaithfulIff(w, b, cmd, args);
    ClearOutcome(clear);
    assert Drop(w.io, 2) == clear;
    assert Works(w.io, 2);
    if !Wedged(s) && (!Coherent(s) || clear != [true, true]) {
      assert Astray(s, w.io, 1, args);
    }
  }

  /** Over a bus that works: from every state, if and only if the mailbox is not poisoned. */
  lemma PairingOnWorkingBus(w: World, b: Which, cmd: Word, args: seq<Word>)
    requires Separated(w.cfg) && w.io == []
    ensures AlwaysFaithful(w, b, cmd, args) <==> Coherent(w.At(b))
  {
    hide AlwaysFaithful;
    AlwaysFaithfulIff(w, b, cmd, args);
    if !Coherent(w.At(b)) {
      assert Astray(w.At(b), w.io, 1, args);
    }
  }

  /** One lost clear spoils the next call too: from any sound, ready mailbox, with every other access
      of both calls working, the next call clears RSP and can still return a wrong answer. */
  lemma LostClearSpoilsNextCall(w: World, b: Which, cmd: Word, args: seq<Word>, next: Word, nextArgs: seq<Word>)
    requires Separated(w.cfg) && Sound(w.At(b)) && w.At(b).rsp != 0
    requires w.io == [true, true, false] && w.fw == []
    ensures
      var after := Send(w, w.cfg.At(b), cmd, args).w;
      && after.io == [] && !AlwaysFaithful(after, b, next, nextArgs)
  {
    hide Send, AlwaysFaithful, Sound;
    ClearOutcome([false]);
    assert Drop(w.io, 2) == [false];
    LostClearIsStale(w, b, cmd, args);
    PairingOnWorkingBus(Send(w, w.cfg.At(b), cmd, args).w, b, next, nextArgs);
  }

  // ---- A DRAM base with one half lost --------------------------------------------------------

  function Ready(): Box {
    Box(1, [0, 0, 0, 0, 0, 0], None, [])
  }

  /** A world in which only the last access of a DRAM base request fails, the one that reads the
      high half, and the firmware answers before the second loop with hi and lo. */
  function HighHalfLost(c: Config, hi: Word, lo: Word): World {
    World(c, Ready(), Ready(), 0,
          [true, true, true, true, true, true, true, true, true, true, true, false],
          [[], [], [], [], [], [], [Done(Rsmu, Reply(1, [lo, hi, 0, 0, 0, 0]))]], 0)
  }

  /** The base returned is then the low half alone: non-zero and not the one the firmware sent. */
  lemma LostHalfIsWrong(c: Config, hi: Word, lo: Word)
    requires Separated(c) && hi != 0 && lo != 0
    ensures
      var w := HighHalfLost(c, hi, lo);
      && SoundWorld(w) && Send(w, c.rsmu, c.cmdGetDramBase, []).cleared
      && BaseAnswer(w).rsmu.args == [lo, hi, 0, 0, 0, 0]
      && GetDramBase(w).1 == lo != hi * 0x1_0000_0000 + lo
  {
    hide Send, Tail, Poll, SmnWrite, SmnRead, Ask;
    var w, m := HighHalfLost(c, hi, lo), c.rsmu;
    var reply := Reply(1, [lo, hi, 0, 0, 0, 0]);
    assert w.At(Rsmu) == Ready();
    SendInParts(w, m, c.cmdGetDramBase, []);
    PollStill(w, Rsmu);
    var w1 := Poll(w, m.rsp, SMU_TIMEOUT).0;
    assert w1.io == w.io[2..] && w1.fw == w.fw[2..];
    WriteStill(w1, Rsmu, Rsp, 0);
    var w2 := SmnWrite(w1, m.rsp, 0).0;
    assert w2.io == w.io[4..] && w2.fw == w.fw[4..] == [[], [], [Done(Rsmu, reply)]];
    AnswerComes(w2, Rsmu, c.cmdGetDramBase, true, reply);
    TailWithoutArgs(w2, m, c.cmdGetDramBase, true);
    var w3 := BaseAnswer(w);
    assert w3.io == w.io[8..] && w3.fw == [] && w3.At(Rsmu) == w3.rsmu;
    ReadStill(w3, Rsmu, Arg(0));
    var w4 := SmnRead(w3, m.arg).0;
    assert w4.io == w.io[10..] && !w4.io[1];
    ReadIo(w4, m.arg + 4);
  }

  lemma TailWithoutArgs(w: World, m: Mailbox, cmd: Word, cleared: bool)
    ensures Tail(w, m, cmd, [], cleared) == Ask(w, m, cmd, cleared)
  {
    hide Ask;
  }

  /** MSG is written, the firmware answers before the first poll. */
  lemma AnswerComes(w: World, b: Which, cmd: Word, cleared: bool, reply: Reply)
    requires Separated(w.cfg) && w.At(b).pending.None? && w.At(b).rsp == 0 && reply.rsp != 0
    requires Works(w.io, 4) && w.fw == [[], [], [Done(b, reply)]]
    ensures
      var r := Ask(w, w.cfg.At(b), cmd, cleared);
      && r.rsp == reply.rsp && r.cleared == cleared && Moved(w, r.w, 4)
      && r.w.At(b) == w.At(b).Issue(cmd).Finish(reply)
  {
    hide Poll, SmnWrite, Works;
    WorksParts(w.io, 2, 2);
    WriteStill(w, b, Msg, cmd);
    var w1 := SmnWrite(w, w.cfg.At(b).msg, cmd).0;
    assert w1.fw == Delayed(1, b, reply);
    DelayedFinishes(1, b, reply);
    PollDelayed(w1, b, 1, SMU_TIMEOUT, reply);
    DropDrop(w.io, 2, 2);
  }

  // ---- Progress: the host's side ---------------------------------------------------------------

  /** The mailbox at the end of the first loop: as it is if RSP is non-zero, and otherwise with the
      earlier command answered. */
  function ReadyBox(s: Box, late: Reply): Box {
    if s.rsp != 0 then s else s.Finish(late)
  }

  /** The firmware lets the first loop end with its j-th poll, and then leaves the host's writes alone. */
  predicate LetsReady(s: Box, fw: seq<seq<Done>>, j: nat, b: Which, late: Reply, args: seq<Word>)
    requires j >= 1
  {
    && (if s.rsp != 0 then Still(fw, 2) else FinishesAt(fw, j, b, late) && late.rsp != 0)
    && Still(Drop(fw, 2 * j), 2 * Count(args) + 4)
  }

  lemma PollReady(w: World, b: Which, j: nat, late: Reply)
    requires Separated(w.cfg) && Coherent(w.At(b)) && 1 <= j <= Polls(w.At(b)) && Works(w.io, 2 * j)
    requires if w.At(b).rsp != 0 then Still(w.fw, 2) else FinishesAt(w.fw, j, b, late) && late.rsp != 0
    ensures
      var (w', v) := Poll(w, w.cfg.At(b).rsp, SMU_TIMEOUT);
      v == Some(w'.At(b).rsp) && w'.At(b) == ReadyBox(w.At(b), late) && Moved(w, w', 2 * j)
  {
    hide Poll, Works, Still;
    if w.At(b).rsp != 0 {
      PollStill(w, b);
    } else {
      PollDelayed(w, b, j, SMU_TIMEOUT, late);
    }
  }

  lemma WrittenIs(before: Args, after: Args, args: seq<Word>)
    requires forall k :: 0 <= k < ARG_COUNT ==> after[k] == if 0 <= k < |args| then args[k] else before[k]
    ensures after == Written(before, args)
  {
  }

  /** From any coherent mailbox that is not wedged, over accesses that succeed: if the first loop ends
      with its j-th poll and the firmware finishes the command, with a non-zero reply, just before the
      k-th poll for the answer, then that reply is the result, for every k up to the limit; and the
      mailbox holds the command, with these arguments, and its answer. */
  lemma CommandIsAnswered(w: World, b: Which, cmd: Word, args: seq<Word>, j: nat, late: Reply, k: nat, reply: Reply)
    requires Separated(w.cfg) && Coherent(w.At(b))
    requires 1 <= j <= Polls(w.At(b)) && 1 <= k <= 10000 && reply.rsp != 0
    requires Works(w.io, 2 * j + 2 * Count(args) + 4 + 2 * k)
    requires LetsReady(w.At(b), w.fw, j, b, late, args)
    requires FinishesAt(Drop(w.fw, 2 * j + 2 * Count(args) + 4), k, b, reply)
    ensures
      var r := Send(w, w.cfg.At(b), cmd, args);
      var s := ReadyBox(w.At(b), late);
      && r.cleared && r.rsp == reply.rsp
      && r.w.At(b) == s.(rsp := 0, args := Written(s.args, args)).Issue(cmd).Finish(reply)
  {
    hide Send, Tail, Poll, SmnWrite, WriteArgs, Works, Still, FinishesAt;
    var m, n := w.cfg.At(b), 2 * Count(args);
    WorksParts(w.io, 2 * j, n + 4 + 2 * k);
    SendInParts(w, m, cmd, args);
    PollReady(w, b, j, late);
    var w1 := Poll(w, m.rsp, SMU_TIMEOUT).0;
    WorksParts(w1.io, 2, n + 2 + 2 * k);
    StillParts(w1.fw, 2, n + 2);
    WriteStill(w1, b, Rsp, 0);
    var w2 := SmnWrite(w1, m.rsp, 0).0;
    DropDrop(w.fw, 2 * j, 2);
    DropDrop(w.fw, 2 * j + 2, n + 2);
    TailIsAnswered(w2, b, cmd, args, true, k, reply);
  }

  lemma TailIsAnswered(w: World, b: Which, cmd: Word, args: seq<Word>, cleared: bool, k: nat, reply: Reply)
    requires Separated(w.cfg) && w.At(b).pending.None? && w.At(b).rsp == 0
    requires 1 <= k <= 10000 && reply.rsp != 0
    requires Works(w.io, 2 * Count(args) + 2 + 2 * k) && Still(w.fw, 2 * Count(args) + 2)
    requires FinishesAt(Drop(w.fw, 2 * Count(args) + 2), k, b, reply)
    ensures
      var r := Tail(w, w.cfg.At(b), cmd, args, cleared);
      && r.cleared == cleared && r.rsp == reply.rsp
      && r.w.At(b) == w.At(b).(args := Written(w.At(b).args, args)).Issue(cmd).Finish(reply)
  {
    hide WriteArgs, SmnWrite, Poll, Works, Still, FinishesAt;
    var m, n := w.cfg.At(b), 2 * Count(args);
    WorksParts(w.io, n, 2 + 2 * k);
    StillParts(w.fw, n, 2);
    ArgsStill(w, b, args, 0);
    var w1 := WriteArgs(w, m.arg, args, 0).0;
    WrittenIs(w.At(b).args, w1.At(b).args, args);
    WorksParts(w1.io, 2, 2 * k);
    WriteStill(w1, b, Msg, cmd);
    var w2 := SmnWrite(w1, m.msg, cmd).0;
    DropDrop(w.fw, n, 2);
    PollDelayed(w2, b, k, SMU_TIMEOUT, reply);
  }
}
