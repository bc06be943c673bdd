/** A whole tick as a function of what its callbacks do, and what it does to the queue. */
module TimerTicks {
  import opened TimerQueues
  import opened TimerRuns
  import opened TimerTheorems

  /** What a callback may do to the queue: add a timer that the allocator places at `addr`,
      or cancel an id. */
  datatype Op = OpAdd(addr: nat, when: int, interval: nat, repeat: bool) | OpCancel(id: Id)

  ghost function RunOp(m: Machine, op: Op): Machine {
    match op
    case OpAdd(addr, when, interval, repeat) =>
      if addr in m.q.mem then m else Step(Step(m, Create(addr, when, interval, repeat)), File(addr))
    case OpCancel(id) => Step(m, CancelId(id))
  }

  /** The first `n` operations of a callback. */
  ghost function RunOps(m: Machine, ops: seq<Op>, n: nat): Machine
    requires n <= |ops|
  {
    if n == 0 then m else RunOp(RunOps(m, ops, n - 1), ops[n - 1])
  }

  /** A callback that begins and does `ops`. */
  ghost function RunCall(m: Machine, ops: seq<Op>): Machine { RunOps(Step(m, Call), ops, |ops|) }

  /** What the `i`-th callback of a tick does. */
  function OpsOf(script: seq<seq<Op>>, i: nat): seq<Op> { if i < |script| then script[i] else [] }

  /** The first `n` callbacks of a tick. */
  ghost function RunCalls(m: Machine, script: seq<seq<Op>>, n: nat): Machine {
    if n == 0 then m else RunCall(RunCalls(m, script, n - 1), OpsOf(script, n - 1))
  }

  /** The first `n` turns of `reset`. */
  ghost function Resets(m: Machine, n: nat): Machine {
    if n == 0 then m else Step(Resets(m, n - 1), ResetNext)
  }

  /** The end of a tick: the resets and the last step. */
  ghost function Ended(c: Machine, n: nat): Machine { Step(Resets(Step(c, StartReset), n), Stop) }

  /** `handleRead` when something has expired. */
  ghost function Tick(m: Machine, now: int, script: seq<seq<Op>>): Machine {
    var n := |BatchAt(m.q, now)|;
    Ended(RunCalls(Step(m, Start(now)), script, n), n)
  }

  // ----- The callbacks ---------------------------------------------------------------

  ghost predicate CancelsIn(ops: seq<Op>, n: nat, id: Id)
    requires n <= |ops|
  {
    exists j: nat :: j < n && ops[j] == OpCancel(id)
  }

  /** One of the first `n` callbacks cancels the id. */
  ghost predicate Cancels(script: seq<seq<Op>>, n: nat, id: Id) {
    exists i: nat :: i < n && CancelsIn(OpsOf(script, i), |OpsOf(script, i)|, id)
  }

  /** The same tick goes on, at the same callback. */
  ghost predicate GoesOn(m: Machine, after: Machine, calls: nat) {
    Inv(after) && SameTick(m, after) && after.phase.pos == m.phase.pos + calls
  }

  lemma GoesOnThen(m: Machine, mid: Machine, after: Machine, k: nat, l: nat)
    requires GoesOn(m, mid, k) && GoesOn(mid, after, l)
    ensures GoesOn(m, after, k + l)
  {
  }

  lemma StepGoesOn(m: Machine, a: Action)
    requires Inv(m) && m.phase.Calling? && (a.Create? || a.File? || a.CancelId? || a == Call)
    ensures GoesOn(m, Step(m, a), if a == Call && Possible(m, a) then 1 else 0)
  {
    StepKeeps(m, a);
    StepInTick(m, a);
  }

  lemma OpGoesOn(m: Machine, op: Op)
    requires Inv(m) && m.phase.Calling?
    ensures GoesOn(m, RunOp(m, op), 0)
  {
    match op {
      case OpCancel(id) => StepGoesOn(m, CancelId(id));
      case OpAdd(addr, when, interval, repeat) =>
        RunInTick(m, []);
        if addr !in m.q.mem {
          var c := Create(addr, when, interval, repeat);
          StepGoesOn(m, c);
          StepGoesOn(Step(m, c), File(addr));
          GoesOnThen(m, Step(m, c), Step(Step(m, c), File(addr)), 0, 0);
        }
    }
  }

  lemma {:induction false} OpsGoOn(m: Machine, ops: seq<Op>, n: nat)
    requires Inv(m) && m.phase.Calling? && n <= |ops|
    ensures GoesOn(m, RunOps(m, ops, n), 0)
    decreases n
  {
    if n == 0 {
      RunInTick(m, []);
    } else {
      var mid := RunOps(m, ops, n - 1);
      OpsGoOn(m, ops, n - 1);
      OpGoesOn(mid, ops[n - 1]);
      GoesOnThen(m, mid, RunOp(mid, ops[n - 1]), 0, 0);
    }
  }

  /** One callback: it begins, and does its operations. */
  lemma CallGoesOn(m: Machine, ops: seq<Op>)
    requires Inv(m) && m.phase.Calling? && m.phase.pos < |m.phase.batch|
    ensures Possible(m, Call) && GoesOn(m, Step(m, Call), 1) && GoesOn(m, RunCall(m, ops), 1)
  {
    assert m.phase.batch[m.phase.pos] in Batch(m);
    StepGoesOn(m, Call);
    OpsGoOn(Step(m, Call), ops, |ops|);
    GoesOnThen(m, Step(m, Call), RunCall(m, ops), 1, 0);
  }

  lemma {:induction false} CallsGoOn(m: Machine, script: seq<seq<Op>>, n: nat)
    requires Inv(m) && m.phase.Calling? && m.phase.pos == 0 && n <= |m.phase.batch|
    ensures GoesOn(m, RunCalls(m, script, n), n)
    decreases n
  {
    if n == 0 {
      RunInTick(m, []);
    } else {
      var mid, ops := RunCalls(m, script, n - 1), OpsOf(script, n - 1);
      CallsGoOn(m, script, n - 1);
      CallGoesOn(mid, ops);
      GoesOnThen(m, mid, RunCall(mid, ops), n - 1, 1);
    }
  }

  /** The timer at `a` stays in the batch as it is. */
  lemma CallsHold(m: Machine, script: seq<seq<Op>>, n: nat, a: nat)
    requires Inv(m) && m.phase.Calling? && m.phase.pos == 0 && n <= |m.phase.batch| && a in m.phase.batch
    ensures var c := RunCalls(m, script, n);
      && Inv(c) && c.phase.Calling? && c.phase.pos == n && |c.phase.batch| == |m.phase.batch| && a in c.phase.batch
      && a in m.q.mem && a in c.q.mem && c.q.mem[a] == m.q.mem[a]
  {
    CallsGoOn(m, script, n);
  }

  // ----- Which timers of the batch the callbacks cancel ------------------------------

  /** The number of the timer at `a` is among the cancelled ones iff it was or `hit`. */
  ghost predicate DeadIff(m: Machine, after: Machine, a: nat, hit: bool)
    requires a in m.q.mem
  {
    m.q.mem[a].seqno in after.dead <==> m.q.mem[a].seqno in m.dead || hit
  }

  lemma DeadThen(m: Machine, mid: Machine, after: Machine, a: nat, f: bool, g: bool)
    requires a in m.q.mem && a in mid.q.mem && mid.q.mem[a] == m.q.mem[a]
    requires DeadIff(m, mid, a, f) && DeadIff(mid, after, a, g)
    ensures DeadIff(m, after, a, f || g)
  {
  }

  lemma OpDead(m: Machine, op: Op, a: nat)
    requires Inv(m) && m.phase.Calling? && a in m.phase.batch
    ensures a in m.q.mem && DeadIff(m, RunOp(m, op), a, op == OpCancel(Id(a, m.q.mem[a].seqno)))
  {
    assert a in Batch(m);
    if op.OpCancel? { assert SeqApart(m.q.mem, a, op.id.addr); }
  }

  lemma {:induction false} OpsDead(m: Machine, ops: seq<Op>, n: nat, a: nat)
    requires Inv(m) && m.phase.Calling? && n <= |ops| && a in m.phase.batch
    ensures a in m.q.mem && DeadIff(m, RunOps(m, ops, n), a, CancelsIn(ops, n, Id(a, m.q.mem[a].seqno)))
    decreases n
  {
    assert a in Batch(m);
    if n > 0 {
      OpsGoOn(m, ops, n - 1);
      OpsDead(m, ops, n - 1, a);
      OpDead(RunOps(m, ops, n - 1), ops[n - 1], a);
      MoreIn(ops, n, Id(a, m.q.mem[a].seqno));
    }
  }

  lemma MoreIn(ops: seq<Op>, n: nat, id: Id)
    requires 0 < n <= |ops|
    ensures CancelsIn(ops, n, id) <==> CancelsIn(ops, n - 1, id) || ops[n - 1] == OpCancel(id)
  {
  }

  lemma MoreOf(script: seq<seq<Op>>, n: nat, id: Id)
    requires 0 < n
    ensures Cancels(script, n, id) <==> Cancels(script, n - 1, id) || CancelsIn(OpsOf(script, n - 1), |OpsOf(script, n - 1)|, id)
  {
  }

  lemma CallDead(m: Machine, ops: seq<Op>, a: nat)
    requires Inv(m) && m.phase.Calling? && m.phase.pos < |m.phase.batch| && a in m.phase.batch
    ensures a in m.q.mem && DeadIff(m, RunCall(m, ops), a, CancelsIn(ops, |ops|, Id(a, m.q.mem[a].seqno)))
  {
    assert a in Batch(m);
    CallGoesOn(m, ops);
    OpsDead(Step(m, Call), ops, |ops|, a);
  }

  lemma {:induction false} CallsDead(m: Machine, script: seq<seq<Op>>, n: nat, a: nat)
    requires Inv(m) && m.phase.Calling? && m.phase.pos == 0 && n <= |m.phase.batch| && a in m.phase.batch
    ensures a in m.q.mem && DeadIff(m, RunCalls(m, script, n), a, Cancels(script, n, Id(a, m.q.mem[a].seqno)))
    decreases n
  {
    CallsHold(m, script, 0, a);
    if n > 0 {
      var mid, ops := RunCalls(m, script, n - 1), OpsOf(script, n - 1);
      CallsHold(m, script, n - 1, a);
      CallsDead(m, script, n - 1, a);
      CallDead(mid, ops, a);
      var id := Id(a, m.q.mem[a].seqno);
      DeadThen(m, mid, RunCall(mid, ops), a, Cancels(script, n - 1, id), CancelsIn(ops, |ops|, id));
      MoreOf(script, n, id);
    }
  }

  // ----- The resets --------------------------------------------------------------------

  /** Back in the queue at now + interval if it repeats and was not cancelled, else gone. */
  ghost predicate Rearmed(t: Timer, cancelled: bool, after: TimerQ, a: nat, now: int) {
    if t.repeat && !cancelled then Listed(after, a) && after.mem[a] == t.(expiration := now + t.interval)
    else a !in after.mem
  }

  /** The `k`-th timer of the batch has been dealt with. */
  ghost predicate ResetAt(m: Machine, after: TimerQ, k: nat)
    requires m.phase.Resetting? && k < |m.phase.batch|
  {
    var a := m.phase.batch[k];
    a in m.q.mem && Rearmed(m.q.mem[a], m.q.mem[a].seqno in m.dead, after, a, m.phase.now)
  }

  /** What `n` turns of `reset` leave: the front of the batch dealt with, all else as it was. */
  ghost predicate ResetSoFar(m: Machine, after: Machine, n: nat)
    requires m.phase.Resetting?
  {
    && Inv(after) && after.phase == Resetting(m.phase.now, m.phase.batch, n) && n <= |m.phase.batch|
    && after.fired == m.fired && after.ticks == m.ticks && after.dead == m.dead
    && (forall k: nat {:trigger ResetAt(m, after.q, k)} :: k < n ==> ResetAt(m, after.q, k))
    && (forall a: nat {:trigger SameTimer(m.q, after.q, a)} :: a !in m.phase.batch[..n] ==> SameTimer(m.q, after.q, a))
  }

  lemma DistinctInReset(m: Machine, k: nat, i: nat)
    requires Inv(m) && m.phase.Resetting? && m.phase.pos == 0 && k < i < |m.phase.batch|
    ensures m.phase.batch[k] != m.phase.batch[i]
  {
    assert Batch(m) == m.phase.batch;
    assert !Twice(Batch(m), k, i);
  }

  lemma OneMoreReset(m: Machine, mid: Machine, n: nat)
    requires Inv(m) && m.phase.Resetting? && m.phase.pos == 0 && n < |m.phase.batch| && ResetSoFar(m, mid, n)
    ensures Possible(mid, ResetNext) && ResetSoFar(m, Step(mid, ResetNext), n + 1)
  {
    var b, addr, after := m.phase.batch, m.phase.batch[n], Step(mid, ResetNext);
    assert Batch(mid)[0] == addr && addr in Batch(mid);
    StepKeeps(mid, ResetNext);
    RearmExact(mid);
    forall k: nat | k < n ensures b[k] != addr { DistinctInReset(m, k, n); }
    assert SameTimer(m.q, mid.q, addr);
    forall k: nat | k < n + 1 ensures ResetAt(m, after.q, k) {
      if k < n { assert ResetAt(m, mid.q, k) && SameTimer(mid.q, after.q, b[k]); }
    }
    assert b[..n + 1] == b[..n] + [addr];
    forall a: nat | a !in b[..n + 1] ensures SameTimer(m.q, after.q, a) {
      assert SameTimer(m.q, mid.q, a) && SameTimer(mid.q, after.q, a);
    }
  }

  lemma {:induction false} ResetsExact(m: Machine, n: nat)
    requires Inv(m) && m.phase.Resetting? && m.phase.pos == 0 && n <= |m.phase.batch|
    ensures ResetSoFar(m, Resets(m, n), n)
    decreases n
  {
    if n > 0 {
      ResetsExact(m, n - 1);
      OneMoreReset(m, Resets(m, n - 1), n - 1);
    }
  }

  // ----- The tick ----------------------------------------------------------------------

  /** The `k`-th timer of the batch after the tick: back iff it repeats and no callback
      cancelled it. */
  ghost predicate TickedAt(m: Machine, after: TimerQ, now: int, script: seq<seq<Op>>, k: nat)
    requires k < |BatchAt(m.q, now)|
  {
    var b := BatchAt(m.q, now);
    b[k] in m.q.mem && Rearmed(m.q.mem[b[k]], Cancels(script, |b|, Id(b[k], m.q.mem[b[k]].seqno)), after, b[k], now)
  }

  /** A tick fires the expired timers in order and re-arms exactly those that repeat and that
      none of its callbacks cancelled. */
  ghost predicate Ticked(m: Machine, after: Machine, now: int, script: seq<seq<Op>>) {
    var b := BatchAt(m.q, now);
    && (forall a <- b :: a in m.q.mem)
    && after.fired == m.fired + Fires(m.ticks + 1, m.q.mem, b)
    && forall k: nat {:trigger TickedAt(m, after.q, now, script, k)} :: k < |b| ==> TickedAt(m, after.q, now, script, k)
  }

  /** The state of the queue before its resets, in terms of the state before the tick. */
  lemma CalledTick(m: Machine, now: int, script: seq<seq<Op>>)
    requires Inv(m) && Possible(m, Start(now))
    ensures var b, c := BatchAt(m.q, now), RunCalls(Step(m, Start(now)), script, |BatchAt(m.q, now)|);
      && Inv(c) && Possible(c, StartReset) && c.phase.batch == b && c.phase.now == now
      && (forall a <- b :: a in m.q.mem && a in c.q.mem && c.q.mem[a] == m.q.mem[a])
      && c.fired == m.fired + Fires(m.ticks + 1, m.q.mem, b)
  {
    var s := Begun(m, now);
    assert s == Step(m, Start(now));
    StepKeeps(m, Start(now));
    CalledAll(s, script);
  }

  lemma CalledAll(s: Machine, script: seq<seq<Op>>)
    requires Inv(s) && s.phase.Calling? && s.phase.pos == 0
    ensures var b, c := s.phase.batch, RunCalls(s, script, |s.phase.batch|);
      && Inv(c) && Possible(c, StartReset) && c.phase.batch == b && c.phase.now == s.phase.now
      && (forall a <- b :: a in s.q.mem && a in c.q.mem && c.q.mem[a] == s.q.mem[a])
      && c.fired == s.phase.base + Fires(s.ticks, s.q.mem, b)
  {
    CallsGoOn(s, script, |s.phase.batch|);
    TickDone(s, RunCalls(s, script, |s.phase.batch|));
  }

  lemma CalledDead(m: Machine, now: int, script: seq<seq<Op>>, a: nat)
    requires Inv(m) && Possible(m, Start(now)) && a in BatchAt(m.q, now)
    ensures var b := BatchAt(m.q, now); var c := RunCalls(Step(m, Start(now)), script, |b|);
      a in m.q.mem && (m.q.mem[a].seqno in c.dead <==> Cancels(script, |b|, Id(a, m.q.mem[a].seqno)))
  {
    var s := Begun(m, now);
    assert s == Step(m, Start(now));
    StepKeeps(m, Start(now));
    CallsDead(s, script, |s.phase.batch|, a);
    assert PlacedAt(m, a);
  }

  ghost predicate EndedAt(c: Machine, after: TimerQ, k: nat)
    requires c.phase.Calling? && k < |c.phase.batch|
  {
    var a := c.phase.batch[k];
    a in c.q.mem && Rearmed(c.q.mem[a], c.q.mem[a].seqno in c.dead, after, a, c.phase.now)
  }

  lemma EndExact(c: Machine)
    requires Inv(c) && Possible(c, StartReset)
    ensures var e := Ended(c, |c.phase.batch|);
      && Inv(e) && e.phase.Rest? && e.fired == c.fired
      && forall k: nat {:trigger EndedAt(c, e.q, k)} :: k < |c.phase.batch| ==> EndedAt(c, e.q, k)
  {
    var b, r := c.phase.batch, Step(c, StartReset);
    StepKeeps(c, StartReset);
    ResetsExact(r, |b|);
    var e := Resets(r, |b|);
    StepKeeps(e, Stop);
    forall k: nat | k < |b| ensures EndedAt(c, Step(e, Stop).q, k) { assert ResetAt(r, e.q, k); }
  }

  lemma TickExact(m: Machine, now: int, script: seq<seq<Op>>)
    requires Inv(m) && Possible(m, Start(now))
    ensures var t := Tick(m, now, script); Inv(t) && t.phase.Rest? && Ticked(m, t, now, script)
  {
    var b, t := BatchAt(m.q, now), Tick(m, now, script);
    var c := RunCalls(Step(m, Start(now)), script, |b|);
    CalledTick(m, now, script);
    EndExact(c);
    forall k: nat | k < |b| ensures TickedAt(m, t.q, now, script, k) {
      assert EndedAt(c, t.q, k) && b[k] in b;
      CalledDead(m, now, script, b[k]);
    }
  }
}
