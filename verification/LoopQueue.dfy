/** The functor queue of an event loop (`IoUringLoop`) and its wake-up through an eventfd:
    the loop thread, any number of producer threads and the kernel, interleaved freely. */
module LoopQueues {

  /** The counter of an eventfd stops here; a write that would pass it fails. */
  const COUNTER_MAX: nat := 0xFFFF_FFFF_FFFF_FFFE

  datatype Cqe = WakeUp | Other

  /** Where the loop thread is.  `Before` is the time before `loop()` is called. */
  datatype Phase =
    | Before
    | Submitting
    | Peeking
    | Blocked
    | Timers(count: nat)
    | Handling(done: nat, count: nat)
    | Draining
    | Flagging
    | Swapping
    | Running(batch: seq<nat>, pos: nat)

  /** `inSq`, `inKernel` and the `WakeUp` entries of `cq` are the reads of the eventfd; `cap`
      is the size of `cqes_`.  `about` holds the threads between their push and their wake,
      `selfAbout` says the same of the loop thread.  `queued` and `executed` log functors;
      `turns` counts finished iterations; `early` says that a functor queued by the loop
      thread before `loop()` has not been taken yet. */
  datatype State = State(
    phase: Phase, pending: seq<nat>, calling: bool,
    token: nat, inSq: nat, inKernel: nat, cq: seq<Cqe>, cap: nat,
    about: set<nat>, selfAbout: bool,
    queued: seq<nat>, executed: seq<nat>, turns: nat, early: bool)

  function Fresh(cap: nat): State {
    State(Before, [], false, 0, 0, 0, [], cap, {}, false, [], [], 0, false)
  }

  datatype Action =
    // Other threads: queueInLoop is a push under the lock and then a wake.
    | Push(thread: nat, f: nat) | Wake(thread: nat) | Nudge
    // Code that runs on the loop thread: a push and then a wake if the flag is set.
    | LoopPush(f: nat) | LoopWake | SubmitNow
    // The loop.
    | Begin | SubmitAll | Peek | Return | TimeOut | TimersDone | Handle | Advance
    | Drained | SetCalling | Swap | RunNext | Clear
    // The kernel.
    | Fire | Spurious | Post

  /** Whether user code has the loop thread. */
  predicate UserCode(s: State) {
    match s.phase
    case Before => true
    case Timers(_) => true
    case Handling(done, _) => done > 0
    case Running(_, pos) => pos > 0
    case _ => false
  }

  predicate Possible(s: State, a: Action) {
    match a
    case Push(t, _) => t !in s.about
    case Wake(t) => t in s.about
    case Nudge => true
    case LoopPush(_) => UserCode(s) && !s.selfAbout
    case LoopWake => s.selfAbout
    case SubmitNow => UserCode(s) && !s.selfAbout
    case Begin => s.phase == Before && !s.selfAbout
    case SubmitAll => s.phase == Submitting
    case Peek => s.phase == Peeking
    case Return => s.phase == Blocked && s.cq != []
    case TimeOut => s.phase == Blocked
    case TimersDone => s.phase.Timers? && !s.selfAbout
    case Handle => s.phase.Handling? && !s.selfAbout && s.phase.done < s.phase.count && s.phase.done < |s.cq|
    case Advance => s.phase.Handling? && !s.selfAbout && s.phase.done == s.phase.count && s.phase.count <= |s.cq|
    case Drained => s.phase == Draining
    case SetCalling => s.phase == Flagging
    case Swap => s.phase == Swapping
    case RunNext => s.phase.Running? && !s.selfAbout && s.phase.pos < |s.phase.batch|
    case Clear => s.phase.Running? && !s.selfAbout && s.phase.pos == |s.phase.batch|
    case Fire => s.inKernel > 0 && s.token > 0
    case Spurious => s.inKernel > 0
    case Post => true
  }

  function Bump(token: nat): nat { if token < COUNTER_MAX then token + 1 else token }

  /** How many completions a peek hands out. */
  function Seen(s: State): nat { if |s.cq| < s.cap then |s.cq| else s.cap }

  function Do(s: State, a: Action): State
    requires Possible(s, a)
  {
    match a
    case Push(t, f) => s.(pending := s.pending + [f], queued := s.queued + [f], about := s.about + {t})
    case Wake(t) => s.(token := Bump(s.token), about := s.about - {t})
    case Nudge => s.(token := Bump(s.token))
    case LoopPush(f) =>
      s.(pending := s.pending + [f], queued := s.queued + [f], selfAbout := true, early := s.early || s.phase == Before)
    case LoopWake => s.(token := if s.calling then Bump(s.token) else s.token, selfAbout := false)
    case SubmitNow => Submitted(s)
    case Begin => s.(phase := Submitting, inSq := s.inSq + 1)
    case SubmitAll => Submitted(s).(phase := Peeking)
    case Peek => s.(phase := if Seen(s) == 0 then Blocked else Timers(Seen(s)))
    case Return => s.(phase := Timers(Seen(s)))
    case TimeOut => s.(phase := Timers(Seen(s)))
    case TimersDone => s.(phase := Handling(0, s.phase.count))
    case Handle =>
      s.(phase := Handling(s.phase.done + 1, s.phase.count),
         inSq := if s.cq[s.phase.done] == WakeUp then s.inSq + 1 else s.inSq)
    case Advance => s.(phase := Draining, cq := s.cq[s.phase.count..])
    case Drained => s.(phase := Flagging)
    case SetCalling => s.(phase := Swapping, calling := true)
    case Swap => s.(phase := Running(s.pending, 0), pending := [], early := false)
    case RunNext =>
      s.(phase := Running(s.phase.batch, s.phase.pos + 1), executed := s.executed + [s.phase.batch[s.phase.pos]])
    case Clear => s.(phase := Submitting, calling := false, turns := s.turns + 1)
    case Fire => s.(inKernel := s.inKernel - 1, token := 0, cq := s.cq + [WakeUp])
    case Spurious => s.(inKernel := s.inKernel - 1, cq := s.cq + [WakeUp])
    case Post => s.(cq := s.cq + [Other])
  }

  function Submitted(s: State): State { s.(inKernel := s.inKernel + s.inSq, inSq := 0) }

  function Step(s: State, a: Action): State { if Possible(s, a) then Do(s, a) else s }

  function Exec(s: State, acts: seq<Action>): State
    decreases |acts|
  {
    if acts == [] then s else Exec(Step(s, acts[0]), acts[1..])
  }

  // ----- Invariant ---------------------------------------------------------------

  /** The completions not yet handled; handled ones stay in the ring until the advance. */
  function Unreaped(s: State): seq<Cqe> {
    if s.phase.Handling? && s.phase.done <= |s.cq| then s.cq[s.phase.done..] else s.cq
  }

  function WakesIn(cq: seq<Cqe>): nat {
    if cq == [] then 0 else (if cq[0] == WakeUp then 1 else 0) + WakesIn(cq[1..])
  }

  function WakeCqes(s: State): nat { WakesIn(Unreaped(s)) }

  lemma {:induction false} WakesInSnoc(cq: seq<Cqe>, c: Cqe)
    ensures WakesIn(cq + [c]) == WakesIn(cq) + if c == WakeUp then 1 else 0
  {
    if cq != [] {
      assert (cq + [c])[1..] == cq[1..] + [c];
      WakesInSnoc(cq[1..], c);
    }
  }

  /** What is left of the batch that was swapped out. */
  function Rest(s: State): seq<nat> {
    if s.phase.Running? && s.phase.pos <= |s.phase.batch| then s.phase.batch[s.phase.pos..] else []
  }

  /** Something will end, or prevent, the next wait. */
  predicate Roused(s: State) {
    s.token > 0 || WakeCqes(s) > 0 || s.about != {}
  }

  /** Phases from which the loop may block before it looks at the queue. */
  predicate MayBlock(s: State) {
    s.phase in {Before, Submitting, Peeking, Blocked} || s.phase.Running?
  }

  predicate Inv(s: State) {
    && s.executed + Rest(s) + s.pending == s.queued
    && s.inSq + s.inKernel + WakeCqes(s) == (if s.phase == Before then 0 else 1)
    && (s.phase in {Peeking, Blocked} ==> s.inSq == 0)
    && (s.phase.Handling? ==> s.phase.done <= s.phase.count <= |s.cq|)
    && (s.phase.Timers? ==> s.phase.count <= |s.cq|)
    && (s.phase.Running? ==> s.phase.pos <= |s.phase.batch|)
    && (s.calling <==> s.phase == Swapping || s.phase.Running?)
    && (s.selfAbout ==> UserCode(s))
    && (s.early ==> s.turns == 0 && !s.phase.Running?)
    && (MayBlock(s) && s.pending != [] ==> Roused(s) || s.selfAbout || s.early)
    && (s.phase == Before ==> s.turns == 0 && (s.selfAbout ==> s.early))
  }

  lemma ThreadStepKeeps(s: State, a: Action)
    requires Inv(s) && Possible(s, a) && (a.Push? || a.Wake? || a.Nudge? || a.LoopPush? || a.LoopWake? || a.SubmitNow?)
    ensures Inv(Do(s, a))
  {
    var n := Do(s, a);
    assert Unreaped(n) == Unreaped(s) && Rest(n) == Rest(s);
  }

  lemma PollStepKeeps(s: State, a: Action)
    requires Inv(s) && Possible(s, a)
    requires a.Begin? || a.SubmitAll? || a.Peek? || a.Return? || a.TimeOut? || a.TimersDone? || a.Drained? || a.SetCalling?
    ensures Inv(Do(s, a))
  {
  }

  lemma HandleKeeps(s: State)
    requires Inv(s) && Possible(s, Handle)
    ensures Inv(Do(s, Handle))
  {
    var k := s.phase.done;
    assert s.cq[k..][1..] == s.cq[k + 1..];
  }

  lemma TurnKeeps(s: State, a: Action)
    requires Inv(s) && Possible(s, a) && (a.Swap? || a.Clear? || a.Advance?)
    ensures Inv(Do(s, a))
  {
  }

  lemma RunNextKeeps(s: State)
    requires Inv(s) && Possible(s, RunNext)
    ensures Inv(Do(s, RunNext))
  {
    MoveOne(s.executed, s.phase.batch, s.phase.pos);
  }

  /** The functor at `k` goes from the batch to the log. */
  lemma MoveOne(log: seq<nat>, batch: seq<nat>, k: nat)
    requires k < |batch|
    ensures log + batch[k..] == (log + [batch[k]]) + batch[k + 1..]
  {
  }

  lemma KernelStepKeeps(s: State, a: Action)
    requires Inv(s) && Possible(s, a) && (a.Fire? || a.Spurious? || a.Post?)
    ensures Inv(Do(s, a))
  {
    var n := Do(s, a);
    UnreapedSnoc(s, n, if a.Post? then Other else WakeUp);
  }

  lemma UnreapedSnoc(s: State, n: State, c: Cqe)
    requires n.phase == s.phase && n.cq == s.cq + [c] && (s.phase.Handling? ==> s.phase.done <= |s.cq|)
    ensures WakeCqes(n) == WakeCqes(s) + if c == WakeUp then 1 else 0
  {
    assert Unreaped(n) == Unreaped(s) + [c];
    WakesInSnoc(Unreaped(s), c);
  }

  lemma StepKeeps(s: State, a: Action)
    requires Inv(s)
    ensures Inv(Step(s, a))
  {
    if Possible(s, a) {
      match a {
        case Push(_, _) => ThreadStepKeeps(s, a);
        case Wake(_) => ThreadStepKeeps(s, a);
        case Nudge => ThreadStepKeeps(s, a);
        case LoopPush(_) => ThreadStepKeeps(s, a);
        case LoopWake => ThreadStepKeeps(s, a);
        case SubmitNow => ThreadStepKeeps(s, a);
        case Handle => HandleKeeps(s);
        case Advance => TurnKeeps(s, a);
        case Swap => TurnKeeps(s, a);
        case RunNext => RunNextKeeps(s);
        case Clear => TurnKeeps(s, a);
        case Fire => KernelStepKeeps(s, a);
        case Spurious => KernelStepKeeps(s, a);
        case Post => KernelStepKeeps(s, a);
        case _ => PollStepKeeps(s, a);
      }
    }
  }

  lemma {:induction false} RunKeeps(s: State, acts: seq<Action>)
    requires Inv(s)
    ensures Inv(Exec(s, acts))
    decreases |acts|
  {
    if acts != [] {
      StepKeeps(s, acts[0]);
      RunKeeps(Step(s, acts[0]), acts[1..]);
    }
  }

  // ----- What every run guarantees -------------------------------------------------

  /** Functors run once each, in the order in which they were queued by all threads: what
      has run, what is left of the batch and what is pending make up the enqueue order. */
  lemma FifoOnce(cap: nat, acts: seq<Action>)
    ensures var s := Exec(Fresh(cap), acts); s.executed + Rest(s) + s.pending == s.queued
  {
    RunKeeps(Fresh(cap), acts);
  }

  /** From the start of the loop on, exactly one read of the eventfd is waiting to be
      submitted, in the kernel or completed and unhandled. */
  lemma OneReadOutstanding(cap: nat, acts: seq<Action>)
    ensures var s := Exec(Fresh(cap), acts);
      s.phase != Before ==> s.inSq + s.inKernel + WakeCqes(s) == 1
  {
    RunKeeps(Fresh(cap), acts);
  }

  /** The loop waits although there is work, and nothing is on its way to end the wait. */
  predicate Asleep(s: State) {
    s.phase == Blocked && s.pending != [] && !Roused(s)
  }

  /** No sleeping on work: only in its first iteration can the loop be asleep, and only if the
      loop thread itself queued a functor before it called `loop()`. */
  lemma NoSleepOnWork(cap: nat, acts: seq<Action>)
    ensures var s := Exec(Fresh(cap), acts); Asleep(s) ==> s.early && s.turns == 0
  {
    RunKeeps(Fresh(cap), acts);
  }

  /** When the loop waits on work and no producer is about to wake it, the wait can end without
      a time-out: either a completion is there or the kernel can post one. */
  lemma WakeIsComing(cap: nat, acts: seq<Action>)
    ensures var s := Exec(Fresh(cap), acts);
      s.phase == Blocked && s.pending != [] && s.about == {} && !s.early ==>
        Possible(s, Return) || (Possible(s, Fire) && Possible(Do(s, Fire), Return))
  {
    RunKeeps(Fresh(cap), acts);
    var s := Exec(Fresh(cap), acts);
  }

  /** As many completions as there are, or as fit. */
  predicate AllThatFit(s: State, n: nat) {
    n <= |s.cq| && n <= s.cap && (n == |s.cq| || n == s.cap)
  }

  /** A peek hands out all completions that fit; at the first peek the loop blocks exactly if
      there are none, and after the wait it goes on with what there is.  The advance removes what
      was handed out and nothing else. */
  lemma PeekExact(s: State)
    ensures s.phase == Peeking ==>
      (Step(s, Peek).phase == Blocked <==> s.cq == [] || s.cap == 0) &&
      (Step(s, Peek).phase != Blocked ==> Step(s, Peek).phase.Timers? && AllThatFit(s, Step(s, Peek).phase.count))
    ensures s.phase == Blocked ==>
      Step(s, TimeOut).phase.Timers? && AllThatFit(s, Step(s, TimeOut).phase.count) &&
      (s.cq != [] ==> Step(s, Return) == Step(s, TimeOut))
    ensures Possible(s, Advance) ==> s.cq == s.cq[..s.phase.count] + Step(s, Advance).cq
  {
  }

  // ----- How long a functor waits --------------------------------------------------

  /** Once turn `t` is over, the functors of `base` have run. */
  predicate Due(s: State, base: seq<nat>, t: nat) {
    && base <= s.queued
    && (s.turns == t && s.phase.Running? ==> base <= s.executed + Rest(s))
    && (s.turns > t ==> base <= s.executed)
  }

  lemma PushDue(s: State, a: Action, base: seq<nat>, t: nat)
    requires Inv(s) && Due(s, base, t) && Possible(s, a) && (a.Push? || a.LoopPush?)
    ensures Due(Do(s, a), base, t)
  {
    assert base <= s.queued + [a.f];
  }

  lemma SwapDue(s: State, base: seq<nat>, t: nat)
    requires Inv(s) && Due(s, base, t) && Possible(s, Swap)
    ensures Due(Do(s, Swap), base, t)
  {
    assert s.executed + Rest(s) + s.pending == s.executed + s.pending;
  }

  lemma ClearDue(s: State, base: seq<nat>, t: nat)
    requires Inv(s) && Due(s, base, t) && Possible(s, Clear)
    ensures Due(Do(s, Clear), base, t)
  {
    assert s.executed + Rest(s) == s.executed;
  }

  lemma RunNextDue(s: State, base: seq<nat>, t: nat)
    requires Inv(s) && Due(s, base, t) && Possible(s, RunNext)
    ensures Due(Do(s, RunNext), base, t)
  {
    MoveOne(s.executed, s.phase.batch, s.phase.pos);
  }

  /** The other steps touch neither log nor batch. */
  lemma QuietDue(s: State, a: Action, base: seq<nat>, t: nat)
    requires Due(s, base, t) && Possible(s, a)
    requires !a.Push? && !a.LoopPush? && !a.Swap? && !a.Clear? && !a.RunNext?
    ensures Due(Do(s, a), base, t)
  {
    var n := Do(s, a);
    assert n.queued == s.queued && n.executed == s.executed && n.turns == s.turns;
    assert n.phase.Running? ==> n.phase == s.phase;
  }

  lemma StepDue(s: State, a: Action, base: seq<nat>, t: nat)
    requires Inv(s) && Due(s, base, t)
    ensures Due(Step(s, a), base, t)
  {
    if Possible(s, a) {
      match a {
        case Push(_, _) => PushDue(s, a, base, t);
        case LoopPush(_) => PushDue(s, a, base, t);
        case Swap => SwapDue(s, base, t);
        case Clear => ClearDue(s, base, t);
        case RunNext => RunNextDue(s, base, t);
        case _ => QuietDue(s, a, base, t);
      }
    }
  }

  lemma {:induction false} RunDue(s: State, acts: seq<Action>, base: seq<nat>, t: nat)
    requires Inv(s) && Due(s, base, t)
    ensures Due(Exec(s, acts), base, t)
    decreases |acts|
  {
    if acts != [] {
      StepKeeps(s, acts[0]);
      StepDue(s, acts[0], base, t);
      RunDue(Step(s, acts[0]), acts[1..], base, t);
    }
  }

  /** Everything queued before the swap of a turn has run when that turn is over, whatever
      else happens meanwhile; what is queued later, when the next one is. */
  lemma DoneWithinATurn(s: State, acts: seq<Action>)
    requires Inv(s)
    ensures var e := Exec(s, acts);
      e.turns > (if s.phase.Running? then s.turns + 1 else s.turns) ==> s.queued <= e.executed
  {
    RunDue(s, acts, s.queued, if s.phase.Running? then s.turns + 1 else s.turns);
  }

  // ----- Functors queued before the loop runs ---------------------------------------

  /** Work is queued when the loop thread calls `loop()`, nothing is on its way to wake the
      loop, and the first peek will see no completion. */
  predicate Unheeded(s: State) {
    s.pending != [] && !Roused(s) && Seen(s) == 0
  }

  lemma TwoSteps(s: State, a: Action, b: Action)
    ensures Exec(s, [a, b]) == Step(Step(s, a), b)
  {
    assert [a, b][1..] == [b] && [b][1..] == [];
    assert Exec(Step(s, a), [b]) == Step(Step(s, a), b);
  }

  /** One functor queued by the loop thread itself is enough: the push leaves no token. */
  lemma EarlyUnheeded(cap: nat, f: nat)
    ensures var s := Exec(Fresh(cap), [LoopPush(f), LoopWake]);
      s.phase == Before && !s.selfAbout && s.early && Unheeded(s)
  {
    TwoSteps(Fresh(cap), LoopPush(f), LoopWake);
  }

  /** The loop then falls asleep at once. */
  lemma EarlyFalls(s: State)
    requires Inv(s) && s.phase == Before && !s.selfAbout && Unheeded(s)
    ensures s.early && Asleep(Exec(Step(s, Begin), [SubmitAll, Peek]))
  {
    TwoSteps(Step(s, Begin), SubmitAll, Peek);
  }

  /** What the loop itself does. */
  predicate OfLoop(a: Action) {
    a.Begin? || a.SubmitAll? || a.Peek? || a.Return? || a.TimeOut? || a.TimersDone? || a.Handle? || a.Advance? ||
    a.Drained? || a.SetCalling? || a.Swap? || a.RunNext? || a.Clear?
  }

  lemma MarkLoopStep(s: State, n: State, a: Action)
    requires s.phase != Before && n == s.(early := false) && OfLoop(a) && Possible(s, a)
    ensures Possible(n, a) && Do(n, a) == Do(s, a).(early := false) && Do(s, a).phase != Before
  {
    assert Seen(n) == Seen(s);
  }

  lemma MarkOtherStep(s: State, n: State, a: Action)
    requires s.phase != Before && n == s.(early := false) && !OfLoop(a) && Possible(s, a)
    ensures Possible(n, a) && Do(n, a) == Do(s, a).(early := false) && Do(s, a).phase != Before
  {
  }

  /** A step does not look at the `early` mark. */
  lemma MarkStep(s: State, n: State, a: Action)
    requires s.phase != Before && n == s.(early := false)
    ensures Step(n, a) == Step(s, a).(early := false) && Step(s, a).phase != Before
  {
    assert Possible(n, a) <==> Possible(s, a);
    if Possible(s, a) {
      if OfLoop(a) { MarkLoopStep(s, n, a); } else { MarkOtherStep(s, n, a); }
    }
  }

  lemma {:induction false} MarkIsGhost(s: State, acts: seq<Action>)
    requires s.phase != Before
    ensures Exec(s.(early := false), acts) == Exec(s, acts).(early := false)
    decreases |acts|
  {
    if acts != [] {
      MarkStep(s, s.(early := false), acts[0]);
      MarkIsGhost(Step(s, acts[0]), acts[1..]);
    }
  }

  /** If something will wake the loop, or nothing is queued, the mark may be dropped and the
      invariant does the rest. */
  lemma HeededAwake(s: State, acts: seq<Action>)
    requires Inv(s) && s.phase == Before && !s.selfAbout && (s.pending == [] || Roused(s))
    ensures !Asleep(Exec(Step(s, Begin), acts))
  {
    StepKeeps(s, Begin);
    var n := Step(s, Begin);
    MarkIsGhost(n, acts);
    RunKeeps(n.(early := false), acts);
  }

  /** In its first iteration the loop does not block: it has seen a completion. */
  predicate PassesBy(s: State) {
    s.early ==> s.phase != Blocked && s.phase != Before && (s.phase in {Submitting, Peeking} ==> Seen(s) > 0)
  }

  lemma PassesByStep(s: State, a: Action)
    requires PassesBy(s) && s.phase != Before && (s.early ==> !s.phase.Running?)
    ensures PassesBy(Step(s, a)) && Step(s, a).phase != Before
  {
  }

  lemma {:induction false} PassesByStays(s: State, acts: seq<Action>)
    requires Inv(s) && PassesBy(s) && s.phase != Before
    ensures PassesBy(Exec(s, acts))
    decreases |acts|
  {
    if acts != [] {
      StepKeeps(s, acts[0]);
      PassesByStep(s, acts[0]);
      PassesByStays(Step(s, acts[0]), acts[1..]);
    }
  }

  lemma SeenAwake(s: State, acts: seq<Action>)
    requires Inv(s) && s.phase == Before && !s.selfAbout && Seen(s) > 0
    ensures !Asleep(Exec(Step(s, Begin), acts))
  {
    StepKeeps(s, Begin);
    RunKeeps(Step(s, Begin), acts);
    PassesByStays(Step(s, Begin), acts);
  }

  /** Exactly when no run of the loop sleeps on work, whatever any thread did before
      `loop()`: when it does not start with unheeded work.  Only the loop thread can leave such
      work behind. */
  lemma NeverAsleepExact(s: State)
    requires Inv(s) && s.phase == Before && !s.selfAbout
    ensures (forall acts: seq<Action> :: !Asleep(Exec(Step(s, Begin), acts))) <==> !Unheeded(s)
    ensures Unheeded(s) ==> s.early
  {
    var n := Step(s, Begin);
    if Unheeded(s) {
      EarlyFalls(s);
      assert exists acts: seq<Action> :: Asleep(Exec(n, acts));
    } else {
      forall acts: seq<Action> ensures !Asleep(Exec(n, acts)) {
        if Seen(s) > 0 { SeenAwake(s, acts); } else { HeededAwake(s, acts); }
      }
    }
  }
}
