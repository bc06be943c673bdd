/** What every run of the timer queue guarantees. */
module TimerTheorems {
  import opened TimerQueues
  import opened TimerRuns

  /** In every run no assertion fails: list and set stay in bijection, insertion never
      overwrites, no pointer in the set dangles. */
  lemma IndexesAgree(acts: seq<Action>)
    ensures var m := Exec(START, acts);
      !m.fault && Agrees(m.q) && |m.q.list| == |m.q.active|
  {
    StartInv();
    RunKeeps(START, acts);
    SizesAgree(Exec(START, acts).q);
  }

  /** In every run a one-shot timer fires at most once. */
  lemma OneShotOnce(acts: seq<Action>, c: nat)
    ensures var m := Exec(START, acts); c in m.once ==> Times(m.fired, c) <= 1
  {
    StartInv();
    RunKeeps(START, acts);
    assert OnceAt(Exec(START, acts), c);
  }

  // ----- A tick fires exactly what has expired --------------------------------------

  /** The batch of a tick: exactly the filed timers that have expired, in key order. */
  lemma BatchExact(q: TimerQ, now: int)
    requires Agrees(q)
    ensures forall a: nat :: a in BatchAt(q, now) <==> Listed(q, a) && q.mem[a].expiration <= now
    ensures forall i: nat, j: nat | i < j < |BatchAt(q, now)| :: KeyBefore(q, BatchAt(q, now), i, j)
  {
    var k, b := Expired(q.list, now), BatchAt(q, now);
    forall a: nat ensures a in b <==> Listed(q, a) && q.mem[a].expiration <= now {
      FrontOrRest(q, k, a);
      if a in b {
        var i :| 0 <= i < k && b[i] == a;
        assert q.list[i] in q.list && FiledAt(q, q.list[i]);
      } else if Listed(q, a) {
        LaterNotExpired(q, now, a);
      }
    }
    forall i: nat, j: nat | i < j < |b| ensures KeyBefore(q, b, i, j) {
      assert Before(q.list, i, j);
      assert q.list[i] in q.list && q.list[j] in q.list && FiledAt(q, q.list[i]) && FiledAt(q, q.list[j]);
    }
  }

  /** Of two timers in the batch, the first has the smaller (expiration, sequence). */
  ghost predicate KeyBefore(q: TimerQ, b: seq<nat>, i: nat, j: nat)
    requires i < |b| && j < |b|
  {
    b[i] in q.mem && b[j] in q.mem &&
    var t, u := q.mem[b[i]], q.mem[b[j]];
    t.expiration < u.expiration || (t.expiration == u.expiration && t.seqno < u.seqno)
  }

  lemma LaterNotExpired(q: TimerQ, now: int, a: nat)
    requires Agrees(q) && Listed(q, a) && a !in BatchAt(q, now)
    ensures q.mem[a].expiration > now
  {
    var k, n := Expired(q.list, now), Node(KeyOf(q.mem[a]), a);
    FrontOrRest(q, k, a);
    var j :| 0 <= j < |q.list[k..]| && q.list[k..][j] == n;
    assert j > 0 ==> Before(q.list, k, k + j);
  }

  /** The firings of a batch, in order. */
  function Fires(tick: nat, mem: map<nat, Timer>, batch: seq<nat>): (r: seq<Fire>)
    requires forall a <- batch :: a in mem
    ensures |r| == |batch| && forall i :: 0 <= i < |batch| ==> r[i] == Fire(tick, mem[batch[i]].seqno)
  {
    seq(|batch|, i requires 0 <= i < |batch| => Fire(tick, mem[batch[i]].seqno))
  }

  /** The same tick goes on: same batch, same log before it, same timers in it. */
  ghost predicate SameTick(m: Machine, now: Machine) {
    && m.phase.Calling? && now.phase.Calling?
    && now.phase.batch == m.phase.batch && now.phase.base == m.phase.base && now.phase.now == m.phase.now
    && now.ticks == m.ticks
    && forall a <- m.phase.batch :: a in m.q.mem && a in now.q.mem && now.q.mem[a] == m.q.mem[a]
  }

  lemma StepInTick(m: Machine, a: Action)
    requires Inv(m) && m.phase.Calling? && a != StartReset
    ensures SameTick(m, Step(m, a))
  {
    forall x <- m.phase.batch ensures x in m.q.mem && x in Step(m, a).q.mem && Step(m, a).q.mem[x] == m.q.mem[x] {
      assert x in Batch(m) && PlacedAt(m, x);
      if a.CancelId? { assert ActiveAt(m.q, a.id); }
    }
  }

  lemma {:induction false} RunInTick(m: Machine, acts: seq<Action>)
    requires Inv(m) && m.phase.Calling? && StartReset !in acts
    ensures SameTick(m, Exec(m, acts))
    decreases |acts|
  {
    if acts == [] {
      forall x <- m.phase.batch ensures x in m.q.mem { assert x in Batch(m); }
    } else {
      StepInTick(m, acts[0]);
      StepKeeps(m, acts[0]);
      RunInTick(Step(m, acts[0]), acts[1..]);
    }
  }

  /** When every callback of the batch has begun, the tick has fired the whole batch. */
  lemma AllCalled(m: Machine)
    requires Inv(m) && Possible(m, StartReset)
    ensures forall a <- m.phase.batch :: a in m.q.mem
    ensures m.fired == m.phase.base + Fires(m.ticks, m.q.mem, m.phase.batch)
  {
    forall a <- m.phase.batch ensures a in m.q.mem { assert a in Batch(m); }
    var want := m.phase.base + Fires(m.ticks, m.q.mem, m.phase.batch);
    forall i | 0 <= i < |want| ensures m.fired[i] == want[i] {
      if i >= |m.phase.base| { assert FiredAt(m, i - |m.phase.base|); }
    }
  }

  /** Whatever the callbacks create, file or cancel, by the time all of them have run the
      tick has fired exactly the timers that had expired when it began, once each, in
      (expiration, sequence) order. */
  lemma TickFiresBatch(m: Machine, now: int, acts: seq<Action>)
    requires Inv(m) && Possible(m, Start(now)) && StartReset !in acts
    requires Possible(Exec(Step(m, Start(now)), acts), StartReset)
    ensures var b := BatchAt(m.q, now);
      && (forall a <- b :: a in m.q.mem)
      && Exec(Step(m, Start(now)), acts).fired == m.fired + Fires(m.ticks + 1, m.q.mem, b)
  {
    var s := Begun(m, now);
    assert s == Step(m, Start(now));
    StepKeeps(m, Start(now));
    TickFrom(s, acts);
  }

  /** From any state of the callback phase. */
  lemma TickFrom(s: Machine, acts: seq<Action>)
    requires Inv(s) && s.phase.Calling? && StartReset !in acts && Possible(Exec(s, acts), StartReset)
    ensures forall a <- s.phase.batch :: a in s.q.mem
    ensures Exec(s, acts).fired == s.phase.base + Fires(s.ticks, s.q.mem, s.phase.batch)
  {
    RunInTick(s, acts);
    RunKeeps(s, acts);
    TickDone(s, Exec(s, acts));
  }

  /** The same seen from the state in which the tick began. */
  lemma TickDone(s: Machine, e: Machine)
    requires Inv(e) && SameTick(s, e) && Possible(e, StartReset)
    ensures forall a <- s.phase.batch :: a in s.q.mem
    ensures e.fired == s.phase.base + Fires(s.ticks, s.q.mem, s.phase.batch)
  {
    AllCalled(e);
    assert Fires(e.ticks, e.q.mem, e.phase.batch) == Fires(s.ticks, s.q.mem, s.phase.batch);
  }

  /** The timer at `a`, if any, is as it was and filed if it was. */
  ghost predicate SameTimer(q: TimerQ, after: TimerQ, a: nat) {
    && (a in after.mem <==> a in q.mem) && (a in q.mem ==> after.mem[a] == q.mem[a])
    && (Listed(after, a) <==> Listed(q, a))
  }

  /** Re-arming is exact: a timer of the batch goes back exactly when it repeats and was
      not cancelled, at now + interval, and no other timer is touched. */
  lemma RearmExact(m: Machine)
    requires Inv(m) && Possible(m, ResetNext)
    ensures var a, s := m.phase.batch[m.phase.pos], Step(m, ResetNext);
      var t := m.q.mem[a];
      && (Listed(s.q, a) <==> t.repeat && t.seqno !in m.dead)
      && (Listed(s.q, a) ==> s.q.mem[a] == t.(expiration := m.phase.now + t.interval))
      && (!Listed(s.q, a) ==> a !in s.q.mem)
      && forall b: nat | b != a :: SameTimer(m.q, s.q, b)
  {
    var a := m.phase.batch[m.phase.pos];
    assert Batch(m)[0] == a;
    assert PlacedAt(m, a);
    ResetAgrees(m.q, a, m.phase.now);
  }

  // ----- Cancellation ------------------------------------------------------------------

  /** No timer numbered `c` is in a batch taken after tick `t`. */
  ghost predicate Silenced(m: Machine, c: nat, t: nat) {
    && c in m.dead && t <= m.ticks
    && (t < m.ticks ==> forall a <- Batch(m) :: a in m.q.mem ==> m.q.mem[a].seqno != c)
  }

  lemma StepSilenced(m: Machine, a: Action, c: nat, t: nat)
    requires Inv(m) && Silenced(m, c, t)
    ensures Silenced(Step(m, a), c, t)
    ensures m.fired <= Step(m, a).fired
    ensures forall k :: |m.fired| <= k < |Step(m, a).fired| ==> Step(m, a).fired[k].seqno == c ==> Step(m, a).fired[k].tick == t
  {
    var s := Step(m, a);
    if Possible(m, a) && a.Start? {
      forall x <- Batch(s) ensures x in s.q.mem ==> s.q.mem[x].seqno != c {
        FrontOrRest(m.q, Expired(m.q.list, a.now), x);
        assert PlacedAt(m, x);
      }
    } else if Possible(m, a) {
      forall x <- Batch(s) ensures x in Batch(m) { }
      forall x <- Batch(s) ensures x in m.q.mem && (x in s.q.mem ==> s.q.mem[x].seqno == m.q.mem[x].seqno) { }
      if a.Call? { assert m.phase.batch[m.phase.pos] in Batch(m); }
    }
  }

  lemma {:induction false} SilencedForGood(m: Machine, acts: seq<Action>, c: nat, t: nat)
    requires Inv(m) && Silenced(m, c, t)
    ensures var e := Exec(m, acts);
      m.fired <= e.fired && forall k :: |m.fired| <= k < |e.fired| ==> e.fired[k].seqno == c ==> e.fired[k].tick == t
    decreases |acts|
  {
    if acts != [] {
      StepKeeps(m, acts[0]);
      StepSilenced(m, acts[0], c, t);
      SilencedForGood(Step(m, acts[0]), acts[1..], c, t);
      var s, e := Step(m, acts[0]), Exec(m, acts);
      forall k | |m.fired| <= k < |e.fired| && e.fired[k].seqno == c ensures e.fired[k].tick == t {
        if k < |s.fired| { assert e.fired[k] == s.fired[k]; }
      }
    }
  }

  /** Cancellation is final: once the id of a filed timer, or of one in the current batch,
      has been handled, no later tick fires that timer in any continuation of the run. */
  lemma CancelIsFinal(m: Machine, id: Id, acts: seq<Action>)
    requires Inv(m) && Possible(m, CancelId(id)) && Inserted(m, id)
    ensures var s := Step(m, CancelId(id));
      var e := Exec(s, acts);
      s.fired <= e.fired &&
      forall k :: |s.fired| <= k < |e.fired| && e.fired[k].seqno == id.seqno ==>
        e.fired[k].tick == m.ticks && m.phase.Calling?
  {
    var s := Step(m, CancelId(id));
    StepKeeps(m, CancelId(id));
    SilencedForGood(s, acts, id.seqno, m.ticks);
    if !m.phase.Calling? { SilentAtRest(s, acts, id.seqno, m.ticks); }
  }

  /** Cancelled outside any tick: not even the number of the last tick comes up again. */
  lemma {:induction false} SilentAtRest(m: Machine, acts: seq<Action>, c: nat, t: nat)
    requires Inv(m) && c in m.dead && t <= m.ticks && (m.phase.Calling? ==> t < m.ticks)
    ensures var e := Exec(m, acts);
      m.fired <= e.fired && forall k :: |m.fired| <= k < |e.fired| ==> e.fired[k].tick > t
    decreases |acts|
  {
    if acts != [] {
      var s, e := Step(m, acts[0]), Exec(m, acts);
      StepKeeps(m, acts[0]);
      SilentAtRest(s, acts[1..], c, t);
      forall k | |m.fired| <= k < |e.fired| ensures e.fired[k].tick > t {
        if k < |s.fired| { assert e.fired[k] == s.fired[k]; }
      }
    }
  }

  /** Cancelling an id that names no filed timer and none of the batch, even if its address
      has been given to another timer since, changes nothing that any timer depends on. */
  lemma StaleCancelHarmless(m: Machine, id: Id)
    requires Inv(m) && Possible(m, CancelId(id)) && !Inserted(m, id)
    ensures var s := Step(m, CancelId(id));
      && s.q.mem == m.q.mem && s.q.list == m.q.list && s.q.active == m.q.active && s.dead == m.dead
      && forall a <- Batch(m) :: a in m.q.mem && Rearms(s.q, a) == Rearms(m.q, a)
  {
    assert ActiveAt(m.q, id);
    forall a <- Batch(m) ensures a in m.q.mem { }
  }

  /** The two machines differ at most in pairs to be cancelled that are not in the batch. */
  ghost predicate Alike(m: Machine, n: Machine) {
    && n == m.(q := m.q.(canceling := n.q.canceling))
    && forall a <- Batch(m) :: a in m.q.mem ==>
         (Id(a, m.q.mem[a].seqno) in m.q.canceling <==> Id(a, m.q.mem[a].seqno) in n.q.canceling)
  }

  lemma CancelAlike(m: Machine, n: Machine, id: Id)
    requires Inv(m) && Alike(m, n) && !m.phase.Resetting?
    ensures Alike(Do(m, CancelId(id)), Do(n, CancelId(id)))
  {
    assert ActiveAt(m.q, id);
    var k, l := Do(m, CancelId(id)), Do(n, CancelId(id));
    assert Cancel(n.q, id) == Cancel(m.q, id).(canceling := Cancel(n.q, id).canceling);
    assert Batch(k) == Batch(m) && (CancelOk(n.q, id) <==> CancelOk(m.q, id));
  }

  lemma ResetAlike(m: Machine, n: Machine)
    requires Inv(m) && Alike(m, n) && Possible(m, ResetNext)
    ensures Alike(Do(m, ResetNext), Do(n, ResetNext))
  {
    var addr, now := m.phase.batch[m.phase.pos], m.phase.now;
    assert Batch(m)[0] == addr && addr in Batch(m);
    assert Rearms(m.q, addr) <==> Rearms(n.q, addr);
    assert ResetOne(n.q, addr, now) == ResetOne(m.q, addr, now).(canceling := n.q.canceling);
    if Rearms(m.q, addr) { SameInsert(Armed(m.q, addr, now), Armed(n.q, addr, now), addr); }
    var k := Do(m, ResetNext);
    forall x <- Batch(k) ensures x in Batch(m) { }
  }

  lemma SameInsert(q: TimerQ, r: TimerQ, addr: nat)
    requires r == q.(canceling := r.canceling) && addr in q.mem
    ensures Insert(r, addr) == Insert(q, addr).(canceling := r.canceling) && (InsertOk(r, addr) <==> InsertOk(q, addr))
  {
  }

  lemma FileAlike(m: Machine, n: Machine, addr: nat)
    requires Alike(m, n) && Possible(m, File(addr))
    ensures Alike(Do(m, File(addr)), Do(n, File(addr)))
  {
    SameInsert(m.q, n.q, addr);
  }

  lemma StepAlike(m: Machine, n: Machine, a: Action)
    requires Inv(m) && Alike(m, n)
    ensures Alike(Step(m, a), Step(n, a))
  {
    assert Possible(n, a) <==> Possible(m, a);
    if Possible(m, a) {
      match a {
        case CancelId(id) => CancelAlike(m, n, id);
        case ResetNext => ResetAlike(m, n);
        case File(addr) => FileAlike(m, n, addr);
        case StartReset => assert m.phase.batch[0..] == m.phase.batch;
        case _ =>
      }
    }
  }

  lemma {:induction false} RunAlike(m: Machine, n: Machine, acts: seq<Action>)
    requires Inv(m) && Alike(m, n)
    ensures Alike(Exec(m, acts), Exec(n, acts))
    decreases |acts|
  {
    if acts != [] {
      StepKeeps(m, acts[0]);
      StepAlike(m, n, acts[0]);
      RunAlike(Step(m, acts[0]), Step(n, acts[0]), acts[1..]);
    }
  }

  /** A stale cancellation is never noticed: every continuation of the run fires the same
      timers in the same ticks and leaves the same timers filed as if it had not been made. */
  lemma StaleCancelUnnoticed(m: Machine, id: Id, acts: seq<Action>)
    requires Inv(m) && !Inserted(m, id)
    ensures var with, without := Exec(Step(m, CancelId(id)), acts), Exec(m, acts);
      && with.fired == without.fired
      && with.q.mem == without.q.mem && with.q.list == without.q.list && with.q.active == without.q.active
  {
    assert ActiveAt(m.q, id);
    StepKeeps(m, CancelId(id));
    RunAlike(m, Step(m, CancelId(id)), acts);
  }

  /** A timer created, cancelled and only then filed. */
  ghost function Overtaken(): Machine {
    Step(Step(Step(START, Create(0, 5, 0, false)), CancelId(Id(0, 0))), File(0))
  }

  /** A cancellation that overtakes the filing of its timer is lost: the timer fires. */
  lemma EarlyCancelIsLost()
    ensures Step(Step(Overtaken(), Start(7)), Call).fired == [Fire(1, 0)]
  {
    var q := Overtaken().q;
    assert q.list == [Node(Entry(5, 0), 0)];
    assert Expired(q.list, 7) == 1 && BatchAt(q, 7) == [0];
  }
}
