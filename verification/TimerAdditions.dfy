/** Timers that are added, at rest or by a callback, and timers that a tick does not concern. */
module TimerAdditions {
  import opened TimerQueues
  import opened TimerRuns
  import opened TimerTheorems
  import opened TimerTicks

  /** The timer `t` is at `a`, filed under its own key, and not in the batch. */
  ghost predicate Stands(m: Machine, a: nat, t: Timer) {
    a in m.q.mem && m.q.mem[a] == t && Listed(m.q, a) && a !in Batch(m)
  }

  // ----- Filing ------------------------------------------------------------------------

  /** Filing a created timer lists it as it was created, at rest and inside a callback alike,
      and touches no other. */
  lemma FileExact(m: Machine, addr: nat)
    requires Inv(m) && addr in m.limbo && !m.phase.Resetting?
    ensures var s := Step(m, File(addr));
      && addr in m.q.mem && Stands(s, addr, m.q.mem[addr]) && s.phase == m.phase
      && forall a: nat | a != addr :: SameTimer(m.q, s.q, a)
  {
    assert PlacedAt(m, addr);
    NotFiled(m.q, addr);
    InsertAgrees(m.q, addr);
  }

  /** Adding a timer: from then on it is listed to expire first at the time that was asked. */
  lemma AddExact(m: Machine, addr: nat, when: int, interval: nat, repeat: bool)
    requires Inv(m) && addr !in m.q.mem && !m.phase.Resetting?
    ensures var s := Step(Step(m, Create(addr, when, interval, repeat)), File(addr));
      && Inv(s) && s.phase == m.phase && s.next == m.next + 1
      && Stands(s, addr, Timer(m.next, when, interval, repeat))
      && forall a: nat | a != addr :: SameTimer(m.q, s.q, a)
  {
    var c := Create(addr, when, interval, repeat);
    StepKeeps(m, c);
    StepKeeps(Step(m, c), File(addr));
    FileExact(Step(m, c), addr);
    CreateOthers(m, addr, when, interval, repeat);
  }

  lemma CreateOthers(m: Machine, addr: nat, when: int, interval: nat, repeat: bool)
    requires Inv(m) && addr !in m.q.mem
    ensures forall a: nat | a != addr :: SameTimer(m.q, Step(m, Create(addr, when, interval, repeat)).q, a)
  {
  }

  /** A timer added at rest is in the batch of the next tick exactly if its time has come then. */
  lemma AddedDue(m: Machine, addr: nat, when: int, interval: nat, repeat: bool, now: int)
    requires Inv(m) && addr !in m.q.mem && m.phase.Rest?
    ensures var s := Step(Step(m, Create(addr, when, interval, repeat)), File(addr));
      addr in BatchAt(s.q, now) <==> when <= now
  {
    AddExact(m, addr, when, interval, repeat);
    BatchExact(Step(Step(m, Create(addr, when, interval, repeat)), File(addr)).q, now);
  }

  // ----- Through the callbacks of a tick --------------------------------------------------

  lemma CancelStands(m: Machine, id: Id, a: nat, t: Timer)
    requires Inv(m) && m.phase.Calling? && Stands(m, a, t) && id != Id(a, t.seqno)
    ensures Stands(Step(m, CancelId(id)), a, t)
  {
    assert ActiveAt(m.q, id);
    if id in m.q.active { EraseAgrees(m.q, id); }
  }

  lemma OpStands(m: Machine, op: Op, a: nat, t: Timer)
    requires Inv(m) && m.phase.Calling? && Stands(m, a, t) && op != OpCancel(Id(a, t.seqno))
    ensures Stands(RunOp(m, op), a, t)
  {
    match op {
      case OpCancel(id) => CancelStands(m, id, a, t);
      case OpAdd(addr, when, interval, repeat) =>
        if addr !in m.q.mem {
          AddExact(m, addr, when, interval, repeat);
          assert SameTimer(m.q, RunOp(m, op).q, a);
        }
    }
  }

  /** From operation `k` of a callback to its end none cancels the id. */
  ghost predicate SparedFrom(ops: seq<Op>, k: nat, id: Id) {
    forall j :: k <= j < |ops| ==> ops[j] != OpCancel(id)
  }

  /** The timer stands after `n` operations of a callback. */
  ghost predicate StandsAt(m: Machine, ops: seq<Op>, n: nat, a: nat, t: Timer) {
    Inv(m) && m.phase.Calling? && n <= |ops| && Stands(RunOps(m, ops, n), a, t)
  }

  lemma NextStands(m: Machine, ops: seq<Op>, n: nat, a: nat, t: Timer)
    requires StandsAt(m, ops, n, a, t) && n < |ops| && ops[n] != OpCancel(Id(a, t.seqno))
    ensures StandsAt(m, ops, n + 1, a, t)
  {
    OpsGoOn(m, ops, n);
    OpStands(RunOps(m, ops, n), ops[n], a, t);
  }

  lemma {:induction false} OpsStand(m: Machine, ops: seq<Op>, k: nat, n: nat, a: nat, t: Timer)
    requires StandsAt(m, ops, k, a, t) && k <= n <= |ops| && SparedFrom(ops, k, Id(a, t.seqno))
    ensures StandsAt(m, ops, n, a, t)
    decreases n - k
  {
    if k < n {
      NextStands(m, ops, k, a, t);
      OpsStand(m, ops, k + 1, n, a, t);
    }
  }

  lemma CallStands(m: Machine, ops: seq<Op>, a: nat, t: Timer)
    requires Inv(m) && m.phase.Calling? && m.phase.pos < |m.phase.batch| && Stands(m, a, t) && SparedFrom(ops, 0, Id(a, t.seqno))
    ensures Stands(RunCall(m, ops), a, t)
  {
    CallGoesOn(m, ops);
    OpsStand(Step(m, Call), ops, 0, |ops|, a, t);
  }

  /** Callbacks `k` up to `n` do not cancel the id. */
  ghost predicate SparedBy(script: seq<seq<Op>>, k: nat, n: nat, id: Id) {
    forall i {:trigger OpsOf(script, i)} :: k <= i < n ==> SparedFrom(OpsOf(script, i), 0, id)
  }

  lemma {:induction false} CallsStand(m: Machine, script: seq<seq<Op>>, k: nat, n: nat, a: nat, t: Timer)
    requires Inv(m) && m.phase.Calling? && m.phase.pos == 0 && k <= n <= |m.phase.batch|
    requires Stands(RunCalls(m, script, k), a, t) && SparedBy(script, k, n, Id(a, t.seqno))
    ensures Stands(RunCalls(m, script, n), a, t)
    decreases n
  {
    if k < n {
      CallsStand(m, script, k, n - 1, a, t);
      CallsGoOn(m, script, n - 1);
      CallStands(RunCalls(m, script, n - 1), OpsOf(script, n - 1), a, t);
    }
  }

  // ----- Through a whole tick ---------------------------------------------------------------

  /** A timer that stands when the callbacks are over stands after the resets. */
  lemma EndStands(c: Machine, a: nat, t: Timer)
    requires Inv(c) && Possible(c, StartReset) && Stands(c, a, t)
    ensures Stands(Ended(c, |c.phase.batch|), a, t)
  {
    var b, r := c.phase.batch, Step(c, StartReset);
    StepKeeps(c, StartReset);
    ResetsExact(r, |b|);
    assert b[..|b|] == b;
    assert SameTimer(r.q, Resets(r, |b|).q, a);
  }

  /** A tick leaves every filed timer that has not expired and that no callback cancels as it
      is, filed. */
  lemma TickSpares(m: Machine, now: int, script: seq<seq<Op>>, a: nat)
    requires Inv(m) && Possible(m, Start(now)) && Listed(m.q, a) && m.q.mem[a].expiration > now
    requires SparedBy(script, 0, |BatchAt(m.q, now)|, Id(a, m.q.mem[a].seqno))
    ensures Stands(Tick(m, now, script), a, m.q.mem[a])
  {
    var s, n, t := Begun(m, now), |BatchAt(m.q, now)|, m.q.mem[a];
    assert s == Step(m, Start(now));
    StepKeeps(m, Start(now));
    BatchExact(m.q, now);
    BeginAgrees(m.q, now);
    assert RunCalls(s, script, 0) == s;
    CallsStand(s, script, 0, n, a, t);
    CalledTick(m, now, script);
    EndStands(RunCalls(s, script, n), a, t);
  }

  /** The state in which operation `j` of callback `i` finds the queue. */
  ghost function FoundBy(m: Machine, now: int, script: seq<seq<Op>>, i: nat, j: nat): Machine
    requires j <= |OpsOf(script, i)|
  {
    RunOps(Step(RunCalls(Step(m, Start(now)), script, i), Call), OpsOf(script, i), j)
  }

  /** An added timer stands at the end of its callback. */
  lemma CallAdds(m: Machine, ops: seq<Op>, j: nat)
    requires Inv(m) && m.phase.Calling? && m.phase.pos < |m.phase.batch| && j < |ops| && ops[j].OpAdd?
    requires var p := RunOps(Step(m, Call), ops, j);
      ops[j].addr !in p.q.mem && SparedFrom(ops, j + 1, Id(ops[j].addr, p.next))
    ensures var p := RunOps(Step(m, Call), ops, j);
      Stands(RunCall(m, ops), ops[j].addr, Timer(p.next, ops[j].when, ops[j].interval, ops[j].repeat))
  {
    var c := Step(m, Call);
    CallGoesOn(m, ops);
    OpsGoOn(c, ops, j);
    var p, op := RunOps(c, ops, j), ops[j];
    AddExact(p, op.addr, op.when, op.interval, op.repeat);
    OpsStand(c, ops, j + 1, |ops|, op.addr, Timer(p.next, op.when, op.interval, op.repeat));
  }

  /** A timer that a callback adds and no later operation of the tick cancels is filed after the
      tick, to expire first at the time that was asked. */
  lemma TickAdds(m: Machine, now: int, script: seq<seq<Op>>, i: nat, j: nat)
    requires Inv(m) && Possible(m, Start(now)) && i < |BatchAt(m.q, now)| && j < |OpsOf(script, i)| && OpsOf(script, i)[j].OpAdd?
    requires var op, p := OpsOf(script, i)[j], FoundBy(m, now, script, i, j);
      && op.addr !in p.q.mem
      && SparedFrom(OpsOf(script, i), j + 1, Id(op.addr, p.next))
      && SparedBy(script, i + 1, |BatchAt(m.q, now)|, Id(op.addr, p.next))
    ensures var op, p := OpsOf(script, i)[j], FoundBy(m, now, script, i, j);
      Stands(Tick(m, now, script), op.addr, Timer(p.next, op.when, op.interval, op.repeat))
  {
    var s, n, ops := Begun(m, now), |BatchAt(m.q, now)|, OpsOf(script, i);
    var p := FoundBy(m, now, script, i, j);
    var a, t := ops[j].addr, Timer(p.next, ops[j].when, ops[j].interval, ops[j].repeat);
    assert s == Step(m, Start(now));
    StepKeeps(m, Start(now));
    CallsGoOn(s, script, i);
    CallAdds(RunCalls(s, script, i), ops, j);
    CallsStand(s, script, i + 1, n, a, t);
    CalledTick(m, now, script);
    EndStands(RunCalls(s, script, n), a, t);
  }
}
