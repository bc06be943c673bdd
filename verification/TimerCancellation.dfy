/** Exactly when cancelling a timer is final. */
module TimerCancellation {
  import opened TimerQueues
  import opened TimerRuns
  import opened TimerTheorems

  /** The run fires timer `c` in a tick after `t`. */
  ghost predicate FiresAfter(m: Machine, acts: seq<Action>, c: nat, t: nat) {
    exists f <- Exec(m, acts).fired :: f.seqno == c && f.tick > t
  }

  lemma {:induction false} ExecConcat(m: Machine, a: seq<Action>, b: seq<Action>)
    ensures Exec(m, a + b) == Exec(Exec(m, a), b)
    decreases |a|
  {
    if a == [] {
      assert a + b == b;
    } else {
      assert (a + b)[1..] == a[1..] + b;
      ExecConcat(Step(m, a[0]), a[1..], b);
    }
  }

  lemma ExecOne(m: Machine, a: Action)
    ensures Exec(m, [a]) == Step(m, a)
  {
    assert [a][1..] == [];
  }

  // ----- A timer that was created and not yet filed --------------------------------------

  ghost predicate InLimbo(m: Machine, addr: nat, t: Timer) {
    addr in m.limbo && addr in m.q.mem && m.q.mem[addr] == t
  }

  /** What the loop does next in a tick. */
  ghost function Onward(m: Machine): Action {
    match m.phase
    case Rest => Stop
    case Calling(_, batch, pos, _) => if pos < |batch| then Call else StartReset
    case Resetting(_, batch, pos) => if pos < |batch| then ResetNext else Stop
  }

  /** How many steps the tick still takes. */
  ghost function Left(m: Machine): nat {
    match m.phase
    case Rest => 0
    case Calling(_, batch, pos, _) => if pos <= |batch| then 2 * |batch| - pos + 2 else 0
    case Resetting(_, batch, pos) => if pos <= |batch| then |batch| - pos + 1 else 0
  }

  lemma OnwardStep(m: Machine, addr: nat, t: Timer)
    requires Inv(m) && !m.phase.Rest? && InLimbo(m, addr, t)
    ensures var s := Step(m, Onward(m));
      InLimbo(s, addr, t) && Left(s) < Left(m) && s.ticks == m.ticks
  {
    assert PlacedAt(m, addr);
    if Onward(m) == Call { assert m.phase.batch[m.phase.pos] in Batch(m); }
    if Onward(m) == ResetNext { assert Batch(m)[0] == m.phase.batch[m.phase.pos] && Batch(m)[0] in Batch(m); }
  }

  /** Any tick can be brought to its end with the timer still waiting. */
  lemma {:induction false} ReachRest(m: Machine, addr: nat, t: Timer) returns (acts: seq<Action>)
    requires Inv(m) && InLimbo(m, addr, t)
    ensures var e := Exec(m, acts); Inv(e) && e.phase.Rest? && InLimbo(e, addr, t) && e.ticks == m.ticks
    decreases Left(m)
  {
    if m.phase.Rest? { return []; }
    OnwardStep(m, addr, t);
    StepKeeps(m, Onward(m));
    var more := ReachRest(Step(m, Onward(m)), addr, t);
    acts := [Onward(m)] + more;
    assert acts[1..] == more;
  }

  /** The callbacks of a tick, one after the other. */
  lemma {:induction false} ReachReset(m: Machine) returns (acts: seq<Action>)
    requires Inv(m) && m.phase.Calling?
    ensures StartReset !in acts && Possible(Exec(m, acts), StartReset)
    decreases |m.phase.batch| - m.phase.pos
  {
    if m.phase.pos == |m.phase.batch| { return []; }
    assert m.phase.batch[m.phase.pos] in Batch(m);
    StepKeeps(m, Call);
    var more := ReachReset(Step(m, Call));
    acts := [Call] + more;
    assert acts[1..] == more;
  }

  /** A filed timer fires in a tick at its expiration. */
  lemma FiledFires(m: Machine, addr: nat) returns (acts: seq<Action>)
    requires Inv(m) && m.phase.Rest? && Listed(m.q, addr)
    ensures FiresAfter(m, acts, m.q.mem[addr].seqno, m.ticks)
  {
    var now := m.q.mem[addr].expiration;
    BatchExact(m.q, now);
    assert addr in BatchAt(m.q, now);
    var s := Step(m, Start(now));
    StepKeeps(m, Start(now));
    var calls := ReachReset(s);
    TickFiresBatch(m, now, calls);
    acts := [Start(now)] + calls;
    assert acts[1..] == calls;
    var i :| 0 <= i < |BatchAt(m.q, now)| && BatchAt(m.q, now)[i] == addr;
    var f := Exec(s, calls).fired[|m.fired| + i];
    assert f == Fire(m.ticks + 1, m.q.mem[addr].seqno) && f in Exec(m, acts).fired;
  }

  /** A timer that waits to be filed can still be filed and fire. */
  lemma LimboFires(m: Machine, addr: nat, t: Timer) returns (acts: seq<Action>)
    requires Inv(m) && InLimbo(m, addr, t)
    ensures FiresAfter(m, acts, t.seqno, m.ticks)
  {
    var first := ReachRest(m, addr, t);
    var e := Exec(m, first);
    assert PlacedAt(e, addr);
    NotFiled(e.q, addr);
    InsertAgrees(e.q, addr);
    StepKeeps(e, File(addr));
    var last := FiledFires(Step(e, File(addr)), addr);
    ExecOne(e, File(addr));
    ExecConcat(e, [File(addr)], last);
    ExecConcat(m, first, [File(addr)] + last);
    acts := first + ([File(addr)] + last);
  }

  // ----- The exact condition --------------------------------------------------------------

  /** Cancelling a live timer keeps it from firing in every later tick of every run, exactly
      when the timer was filed or in the batch when the cancellation was handled. */
  lemma CancelFinalExact(m: Machine, id: Id)
    requires Inv(m) && Possible(m, CancelId(id))
    requires id.addr in m.q.mem && m.q.mem[id.addr].seqno == id.seqno
    ensures (forall acts: seq<Action> :: !FiresAfter(Step(m, CancelId(id)), acts, id.seqno, m.ticks)) <==> Inserted(m, id)
  {
    var s := Step(m, CancelId(id));
    if Inserted(m, id) {
      forall acts: seq<Action> ensures !FiresAfter(s, acts, id.seqno, m.ticks) {
        CancelIsFinal(m, id, acts);
        OldFires(m, s, Exec(s, acts), id.seqno);
      }
    } else {
      assert PlacedAt(m, id.addr) && ActiveAt(m.q, id);
      StepKeeps(m, CancelId(id));
      var acts := LimboFires(s, id.addr, m.q.mem[id.addr]);
      assert FiresAfter(s, acts, id.seqno, m.ticks);
    }
  }

  lemma OldFires(m: Machine, s: Machine, e: Machine, c: nat)
    requires Inv(m) && s.fired == m.fired && s.fired <= e.fired
    requires forall k :: |s.fired| <= k < |e.fired| && e.fired[k].seqno == c ==> e.fired[k].tick == m.ticks
    ensures forall f <- e.fired :: f.seqno == c ==> f.tick <= m.ticks
  {
    forall k | 0 <= k < |e.fired| && e.fired[k].seqno == c ensures e.fired[k].tick <= m.ticks {
      if k < |s.fired| { assert e.fired[k] == m.fired[k] && m.fired[k] in m.fired; }
    }
  }

  // ----- In the same tick -----------------------------------------------------------------

  /** The timer's callback is still to come in this tick. */
  predicate StillToRun(m: Machine, addr: nat) {
    m.phase.Calling? && m.phase.pos <= |m.phase.batch| && addr in m.phase.batch[m.phase.pos..]
  }

  /** The run fires timer `c` at least once more. */
  ghost predicate FiresAgain(m: Machine, acts: seq<Action>, c: nat) {
    exists k :: |m.fired| <= k < |Exec(m, acts).fired| && Exec(m, acts).fired[k].seqno == c
  }

  /** Timer `c` is cancelled and no callback of it is to come in this tick. */
  ghost predicate Mute(m: Machine, c: nat) {
    c in m.dead && forall a <- m.q.mem :: m.q.mem[a].seqno == c ==> !StillToRun(m, a)
  }

  lemma StepMute(m: Machine, a: Action, c: nat)
    requires Inv(m) && Mute(m, c)
    ensures var s := Step(m, a);
      Mute(s, c) && m.fired <= s.fired && forall k :: |m.fired| <= k < |s.fired| ==> s.fired[k].seqno != c
  {
    var s := Step(m, a);
    forall x <- s.q.mem | s.q.mem[x].seqno == c ensures !StillToRun(s, x) {
      assert PlacedAt(m, x);
      if Possible(m, a) {
        match a {
          case Create(addr, _, _, _) => assert c < m.next;
          case Call =>
            var b, k := m.phase.batch, m.phase.pos;
            assert b[k..] == [b[k]] + b[k + 1..];
          case _ =>
        }
      }
    }
    if Possible(m, a) && a == Call {
      var b, k := m.phase.batch, m.phase.pos;
      assert b[k] == b[k..][0] && b[k] in b[k..];
    }
  }

  lemma {:induction false} MuteForGood(m: Machine, acts: seq<Action>, c: nat)
    requires Inv(m) && Mute(m, c)
    ensures m.fired <= Exec(m, acts).fired && !FiresAgain(m, acts, c)
    decreases |acts|
  {
    if acts != [] {
      var s, e := Step(m, acts[0]), Exec(m, acts);
      StepKeeps(m, acts[0]);
      StepMute(m, acts[0], c);
      MuteForGood(s, acts[1..], c);
      forall k | |m.fired| <= k < |e.fired| ensures e.fired[k].seqno != c {
        if k < |s.fired| { assert e.fired[k] == s.fired[k]; }
      }
    }
  }

  /** The rest of the tick fires the timers still to run. */
  lemma RestFires(m: Machine, addr: nat) returns (acts: seq<Action>)
    requires Inv(m) && StillToRun(m, addr)
    ensures addr in m.q.mem && FiresAgain(m, acts, m.q.mem[addr].seqno)
  {
    var b, p := m.phase.batch, m.phase.pos;
    var j: nat :| j < |b[p..]| && b[p..][j] == addr;
    assert b[p + j] == addr && addr in Batch(m);
    acts := ReachReset(m);
    TickFrom(m, acts);
    var k := |m.phase.base| + (p + j);
    assert Exec(m, acts).fired[k] == Fire(m.ticks, m.q.mem[addr].seqno);
  }

  /** Cancelling a timer that is filed or in the batch silences it at once, in every run,
      exactly if its callback is not still to come in the current tick. */
  lemma CancelSilencesExact(m: Machine, id: Id)
    requires Inv(m) && Possible(m, CancelId(id)) && Inserted(m, id)
    ensures (forall acts: seq<Action> :: !FiresAgain(Step(m, CancelId(id)), acts, id.seqno)) <==> !StillToRun(m, id.addr)
  {
    var s := Step(m, CancelId(id));
    StepKeeps(m, CancelId(id));
    assert ActiveAt(m.q, id) && PlacedAt(m, id.addr);
    if StillToRun(m, id.addr) {
      var b, p := m.phase.batch, m.phase.pos;
      assert forall x <- b[p..] :: x in b;
      assert id.addr in Batch(m);
      var acts := RestFires(s, id.addr);
      assert FiresAgain(s, acts, id.seqno);
    } else {
      forall a <- s.q.mem | s.q.mem[a].seqno == id.seqno ensures !StillToRun(s, a) { assert SeqApart(m.q.mem, a, id.addr); }
      forall acts: seq<Action> ensures !FiresAgain(s, acts, id.seqno) { MuteForGood(s, acts, id.seqno); }
    }
  }

  /** Two timers filed to expire together. */
  ghost function TwoFiled(): Machine {
    var two := Step(Step(START, Create(0, 5, 0, false)), Create(1, 5, 0, false));
    Step(Step(two, File(0)), File(1))
  }

  lemma TwoFiledState()
    ensures TwoFiled().q.mem == map[0 := Timer(0, 5, 0, false), 1 := Timer(1, 5, 0, false)]
    ensures TwoFiled().q.list == [Node(Entry(5, 0), 0), Node(Entry(5, 1), 1)]
    ensures TwoFiled().phase == Rest && TwoFiled().ticks == 0 && TwoFiled().fired == []
    ensures TwoFiled().q.active == {Id(0, 0), Id(1, 1)}
  {
    var two := Step(Step(START, Create(0, 5, 0, false)), Create(1, 5, 0, false));
    var one := Step(two, File(0));
    assert one.q.list == [Node(Entry(5, 0), 0)];
    assert LowerBound(one.q.list, Entry(5, 1)) == 1;
  }

  /** A tick over both begins. */
  lemma TwoBegun(m: Machine)
    requires m.q.list == [Node(Entry(5, 0), 0), Node(Entry(5, 1), 1)] && m.q.active == {Id(0, 0), Id(1, 1)}
    requires m.phase == Rest && m.ticks == 0 && m.fired == []
    ensures var s := Step(m, Start(7));
      s.phase == Calling(7, [0, 1], 0, []) && s.ticks == 1 && s.fired == [] && s.q.mem == m.q.mem && s.q.active == {}
  {
    var q := m.q;
    assert Expired(q.list, 7) == 2;
    assert q.list[..2] == q.list && BatchAt(q, 7) == [0, 1];
    BothGone(q);
  }

  lemma BothGone(q: TimerQ)
    requires q.list == [Node(Entry(5, 0), 0), Node(Entry(5, 1), 1)]
    ensures Gone(q, 2, Id(0, 0)) && Gone(q, 2, Id(1, 1))
  {
    assert q.list[0].addr == 0 && q.list[1].addr == 1;
  }

  const BOTH_FILED := [Create(0, 5, 0, false), Create(1, 5, 0, false), File(0), File(1)]

  const CANCELLING_TICK := [Start(7), Call, CancelId(Id(1, 1)), Call]

  lemma FiledRun()
    ensures Exec(START, BOTH_FILED) == TwoFiled()
  {
    FourSteps(START, BOTH_FILED);
  }

  lemma TickRun(m: Machine)
    requires m.q.list == [Node(Entry(5, 0), 0), Node(Entry(5, 1), 1)] && m.q.active == {Id(0, 0), Id(1, 1)}
    requires m.q.mem == map[0 := Timer(0, 5, 0, false), 1 := Timer(1, 5, 0, false)]
    requires m.phase == Rest && m.ticks == 0 && m.fired == []
    ensures var e := Exec(m, CANCELLING_TICK); 1 in e.dead && e.fired == [Fire(1, 0), Fire(1, 1)]
  {
    TwoBegun(m);
    SecondFires(Step(m, Start(7)));
    FourSteps(m, CANCELLING_TICK);
  }

  /** In that tick the callback of the first cancels the second, which fires all the same. */
  lemma CancelledStillFires() returns (m: Machine)
    ensures m == Exec(START, BOTH_FILED + CANCELLING_TICK)
    ensures 1 in m.dead && m.fired == [Fire(1, 0), Fire(1, 1)]
  {
    TwoFiledState();
    FiledRun();
    TickRun(TwoFiled());
    ExecConcat(START, BOTH_FILED, CANCELLING_TICK);
    m := Exec(TwoFiled(), CANCELLING_TICK);
  }

  lemma FourSteps(m: Machine, acts: seq<Action>)
    requires |acts| == 4
    ensures Exec(m, acts) == Step(Step(Step(Step(m, acts[0]), acts[1]), acts[2]), acts[3])
  {
    ExecOne(Step(Step(Step(m, acts[0]), acts[1]), acts[2]), acts[3]);
    assert acts[1..][1..][1..] == [acts[3]];
    assert Exec(Step(Step(m, acts[0]), acts[1]), acts[1..][1..]) == Exec(Step(Step(Step(m, acts[0]), acts[1]), acts[2]), [acts[3]]);
  }

  lemma SecondFires(s: Machine)
    requires s.phase == Calling(7, [0, 1], 0, []) && s.ticks == 1 && s.fired == [] && s.q.active == {}
    requires s.q.mem == map[0 := Timer(0, 5, 0, false), 1 := Timer(1, 5, 0, false)]
    ensures var c := Step(Step(s, Call), CancelId(Id(1, 1)));
      1 in Step(c, Call).dead && Step(c, Call).fired == [Fire(1, 0), Fire(1, 1)]
  {
    var one := Step(s, Call);
    assert one.fired == [Fire(1, 0)] && one.phase == Calling(7, [0, 1], 1, []);
    assert 1 in Batch(one);
  }
}
