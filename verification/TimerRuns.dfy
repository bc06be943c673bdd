/** Runs of the timer queue: timers are created by any thread, filed and cancelled by the
    loop thread at rest or from inside a callback, and fired by ticks. */
module TimerRuns {
  import opened TimerQueues

  /** A timer fired, and in which tick. */
  datatype Fire = Fire(tick: nat, seqno: nat)

  /** At rest; running callbacks, of which `pos` have begun; or resetting the batch. */
  datatype Phase =
    | Rest
    | Calling(now: int, batch: seq<nat>, pos: nat, base: seq<Fire>)
    | Resetting(now: int, batch: seq<nat>, pos: nat)

  /** `limbo`: created and not yet filed.  `dead`: sequence numbers whose cancellation was
      handled while the timer was filed or in the batch.  `once`: one-shot timers. */
  datatype Machine = Machine(
    q: TimerQ, phase: Phase, limbo: set<nat>, next: nat, ticks: nat,
    fired: seq<Fire>, dead: set<nat>, once: set<nat>, fault: bool)

  datatype Action =
    | Create(addr: nat, when: int, interval: nat, repeat: bool)
    | File(addr: nat)
    | CancelId(id: Id)
    | Start(now: int)
    | Call
    | StartReset
    | ResetNext
    | Stop

  const START := Machine(EMPTY_QUEUE, Rest, {}, 0, 0, [], {}, {}, false)

  /** The timers taken off the list and not yet dealt with. */
  function Batch(m: Machine): seq<nat> {
    match m.phase
    case Rest => []
    case Calling(_, batch, _, _) => batch
    case Resetting(_, batch, pos) => if pos <= |batch| then batch[pos..] else []
  }

  predicate Possible(m: Machine, a: Action) {
    match a
    case Create(addr, _, _, _) => addr !in m.q.mem
    case File(addr) => addr in m.limbo && addr in m.q.mem && !m.phase.Resetting?
    case CancelId(_) => !m.phase.Resetting?
    case Start(now) => m.phase.Rest? && m.q.list != [] && m.q.list[0].key.when <= now
    case Call => m.phase.Calling? && m.phase.pos < |m.phase.batch| && m.phase.batch[m.phase.pos] in m.q.mem
    case StartReset => m.phase.Calling? && m.phase.pos == |m.phase.batch|
    case ResetNext => m.phase.Resetting? && m.phase.pos < |m.phase.batch| && m.phase.batch[m.phase.pos] in m.q.mem
    case Stop => m.phase.Resetting? && m.phase.pos == |m.phase.batch|
  }

  /** Whether the id names a timer that is filed or in the batch. */
  predicate Inserted(m: Machine, id: Id) {
    id.addr in m.q.mem && m.q.mem[id.addr].seqno == id.seqno && (Listed(m.q, id.addr) || id.addr in Batch(m))
  }

  function Begun(m: Machine, now: int): Machine {
    m.(q := Begin(m.q, now), phase := Calling(now, BatchAt(m.q, now), 0, m.fired), ticks := m.ticks + 1)
  }

  ghost function Do(m: Machine, a: Action): Machine
    requires Possible(m, a)
  {
    match a
    case Create(addr, when, interval, repeat) =>
      m.(q := m.q.(mem := m.q.mem[addr := Timer(m.next, when, interval, repeat)]),
         limbo := m.limbo + {addr}, next := m.next + 1,
         once := if repeat then m.once else m.once + {m.next})
    case File(addr) =>
      m.(q := Insert(m.q, addr), limbo := m.limbo - {addr}, fault := m.fault || !InsertOk(m.q, addr))
    case CancelId(id) =>
      m.(q := Cancel(m.q, id), dead := if Inserted(m, id) then m.dead + {id.seqno} else m.dead,
         fault := m.fault || !CancelOk(m.q, id))
    case Start(now) => Begun(m, now)
    case Call =>
      m.(fired := m.fired + [Fire(m.ticks, m.q.mem[m.phase.batch[m.phase.pos]].seqno)],
         phase := Calling(m.phase.now, m.phase.batch, m.phase.pos + 1, m.phase.base))
    case StartReset =>
      m.(q := m.q.(running := false), phase := Resetting(m.phase.now, m.phase.batch, 0))
    case ResetNext =>
      var addr := m.phase.batch[m.phase.pos];
      m.(q := ResetOne(m.q, addr, m.phase.now), phase := Resetting(m.phase.now, m.phase.batch, m.phase.pos + 1),
         fault := m.fault || (Rearms(m.q, addr) && !InsertOk(Armed(m.q, addr, m.phase.now), addr)))
    case Stop => m.(phase := Rest, fault := m.fault || |m.q.list| != |m.q.active|)
  }

  ghost function Step(m: Machine, a: Action): Machine {
    if Possible(m, a) then Do(m, a) else m
  }

  ghost function Exec(m: Machine, acts: seq<Action>): Machine
    decreases |acts|
  {
    if acts == [] then m else Exec(Step(m, acts[0]), acts[1..])
  }

  // ----- Invariant -------------------------------------------------------------------

  function Times(fired: seq<Fire>, c: nat): nat {
    if fired == [] then 0
    else Times(fired[..|fired| - 1], c) + (if fired[|fired| - 1].seqno == c then 1 else 0)
  }

  /** A live timer is created and waiting, filed, or in the batch: exactly one of them; its
      number was given out; if cancelled, it is in the batch and will not be re-armed. */
  ghost predicate PlacedAt(m: Machine, a: nat) {
    a in m.q.mem ==>
      && m.q.mem[a].seqno < m.next
      && (a in m.limbo ==> !Listed(m.q, a) && a !in Batch(m))
      && (Listed(m.q, a) ==> a !in Batch(m))
      && (a in m.limbo || Listed(m.q, a) || a in Batch(m))
      && (m.q.mem[a].seqno in m.dead ==> a in Batch(m) && Id(a, m.q.mem[a].seqno) in m.q.canceling)
      && (a in Batch(m) && Id(a, m.q.mem[a].seqno) in m.q.canceling ==> m.q.mem[a].seqno in m.dead)
      && (m.q.mem[a].seqno in m.once <==> !m.q.mem[a].repeat)
      && (!m.q.mem[a].repeat && Times(m.fired, m.q.mem[a].seqno) > 0 ==> Called(m, a))
  }

  /** Its callback has begun in this tick. */
  ghost predicate Called(m: Machine, a: nat) {
    match m.phase
    case Rest => false
    case Calling(_, batch, pos, _) => pos <= |batch| && a in batch[..pos]
    case Resetting(_, _, _) => a in Batch(m)
  }

  ghost predicate OnceAt(m: Machine, c: nat) {
    c in m.once ==> c < m.next && Times(m.fired, c) <= 1
  }

  ghost predicate BatchOk(m: Machine) {
    && (forall a <- Batch(m) :: a in m.q.mem)
    && (forall i: nat, j: nat {:trigger Twice(Batch(m), i, j)} :: i < j < |Batch(m)| ==> !Twice(Batch(m), i, j))
    && (m.phase.Calling? ==> m.phase.pos <= |m.phase.batch|)
    && (m.phase.Resetting? ==> m.phase.pos <= |m.phase.batch|)
  }

  ghost predicate Twice(l: seq<nat>, i: nat, j: nat)
    requires i < |l| && j < |l|
  {
    l[i] == l[j]
  }

  /** What this tick has fired so far: the front of its batch, in order. */
  ghost predicate FiredInOrder(m: Machine) {
    m.phase.Calling? ==>
      && |m.fired| == |m.phase.base| + m.phase.pos && m.phase.base <= m.fired
      && forall i: nat {:trigger FiredAt(m, i)} :: i < m.phase.pos ==> FiredAt(m, i)
  }

  ghost predicate FiredAt(m: Machine, i: nat)
    requires m.phase.Calling? && i < m.phase.pos && |m.fired| == |m.phase.base| + m.phase.pos
  {
    i < |m.phase.batch| && m.phase.batch[i] in m.q.mem &&
    m.fired[|m.phase.base| + i] == Fire(m.ticks, m.q.mem[m.phase.batch[i]].seqno)
  }

  ghost predicate Inv(m: Machine) {
    && !m.fault
    && Agrees(m.q)
    && m.limbo <= m.q.mem.Keys
    && (m.q.running <==> m.phase.Calling?)
    && BatchOk(m) && FiredInOrder(m)
    && (forall a: nat {:trigger PlacedAt(m, a)} :: PlacedAt(m, a))
    && (forall c: nat {:trigger OnceAt(m, c)} :: OnceAt(m, c))
    && (forall f <- m.fired :: f.seqno < m.next && f.tick <= m.ticks)
    && (forall c <- m.dead :: c < m.next)
  }

  lemma StartInv()
    ensures Inv(START)
  {
    var q := START.q;
    forall id ensures ActiveAt(q, id) { }
    forall n ensures FiledAt(q, n) { }
    forall a: nat ensures PlacedAt(START, a) { }
    forall c: nat ensures OnceAt(START, c) { }
  }

  lemma NotFiled(q: TimerQ, addr: nat)
    requires Agrees(q) && !Listed(q, addr)
    ensures forall n <- q.list :: n.addr != addr
  {
    forall n <- q.list ensures n.addr != addr { assert FiledAt(q, n); }
  }

  lemma {:induction false} NeverFired(fired: seq<Fire>, c: nat)
    requires forall f <- fired :: f.seqno < c
    ensures Times(fired, c) == 0
  {
    if fired != [] {
      assert fired[|fired| - 1] in fired;
      NeverFired(fired[..|fired| - 1], c);
    }
  }

  lemma CreateKeeps(m: Machine, addr: nat, when: int, interval: nat, repeat: bool)
    requires Inv(m) && addr !in m.q.mem
    ensures Inv(Do(m, Create(addr, when, interval, repeat)))
  {
    var now := Do(m, Create(addr, when, interval, repeat));
    NeverFired(m.fired, m.next);
    assert OnceAt(m, m.next);
    forall n ensures FiledAt(now.q, n) { assert FiledAt(m.q, n); }
    assert FiledAt(m.q, Node(KeyOf(now.q.mem[addr]), addr));
    forall a: nat ensures Listed(now.q, a) == Listed(m.q, a) { }
    forall id ensures ActiveAt(now.q, id) { assert ActiveAt(m.q, id); }
    forall a: nat, b: nat ensures SeqApart(now.q.mem, a, b) { assert SeqApart(m.q.mem, a, b) && PlacedAt(m, a) && PlacedAt(m, b); }
    forall a: nat ensures PlacedAt(now, a) { assert PlacedAt(m, a); }
    forall c: nat ensures OnceAt(now, c) { assert OnceAt(m, c); }
    if m.phase.Calling? { forall i: nat | i < m.phase.pos ensures FiredAt(now, i) { assert FiredAt(m, i); } }
  }

  lemma FileKeeps(m: Machine, addr: nat)
    requires Inv(m) && Possible(m, File(addr))
    ensures Inv(Do(m, File(addr)))
  {
    var now := Do(m, File(addr));
    assert PlacedAt(m, addr);
    NotFiled(m.q, addr);
    InsertAgrees(m.q, addr);
    forall a: nat ensures PlacedAt(now, a) { assert PlacedAt(m, a); }
    forall c: nat ensures OnceAt(now, c) { assert OnceAt(m, c); }
    if m.phase.Calling? { forall i: nat | i < m.phase.pos ensures FiredAt(now, i) { assert FiredAt(m, i); } }
  }

  lemma CancelKeeps(m: Machine, id: Id)
    requires Inv(m) && !m.phase.Resetting?
    ensures Inv(Do(m, CancelId(id)))
  {
    var now := Do(m, CancelId(id));
    SizesAgree(m.q);
    assert ActiveAt(m.q, id) && PlacedAt(m, id.addr);
    if id in m.q.active {
      EraseAgrees(m.q, id);
    } else {
      forall n ensures FiledAt(now.q, n) { assert FiledAt(m.q, n); }
      forall x ensures ActiveAt(now.q, x) { assert ActiveAt(m.q, x); }
    }
    SizesAgree(now.q);
    forall a: nat ensures PlacedAt(now, a) { assert PlacedAt(m, a) && SeqApart(m.q.mem, a, id.addr); }
    forall c: nat ensures OnceAt(now, c) { assert OnceAt(m, c); }
    if m.phase.Calling? {
      forall i: nat | i < m.phase.pos ensures FiredAt(now, i) { assert FiredAt(m, i); assert m.phase.batch[i] in Batch(m); }
    }
  }

  lemma StartKeeps(m: Machine, now: int)
    requires Inv(m) && m.phase.Rest?
    ensures Inv(Begun(m, now))
  {
    var s := Begun(m, now);
    BeginAgrees(m.q, now);
    var batch := BatchAt(m.q, now);
    assert Batch(s) == batch && Batch(m) == [];
    forall i: nat, j: nat | i < j < |batch| ensures !Twice(batch, i, j) { BatchDistinct(m.q, now, i, j); }
    forall a <- batch ensures Listed(m.q, a) { FrontOrRest(m.q, Expired(m.q.list, now), a); }
    forall a: nat ensures PlacedAt(s, a) { assert PlacedAt(m, a); }
    forall c: nat ensures OnceAt(s, c) { assert OnceAt(m, c); }
  }

  lemma CallKeeps(m: Machine)
    requires Inv(m) && Possible(m, Call)
    ensures Inv(Do(m, Call))
  {
    var now, addr := Do(m, Call), m.phase.batch[m.phase.pos];
    var seqno := m.q.mem[addr].seqno;
    assert PlacedAt(m, addr) && addr in Batch(m);
    assert now.fired[..|m.fired|] == m.fired;
    NotYetCalled(m);
    assert m.phase.batch[..m.phase.pos + 1] == m.phase.batch[..m.phase.pos] + [addr];
    forall a: nat ensures PlacedAt(now, a) { assert PlacedAt(m, a) && SeqApart(m.q.mem, a, addr); }
    forall c: nat ensures OnceAt(now, c) { assert OnceAt(m, c); }
    forall i: nat | i < m.phase.pos + 1 ensures FiredAt(now, i) { if i < m.phase.pos { assert FiredAt(m, i); } }
  }

  /** The next timer of the batch has not been called in this tick. */
  lemma NotYetCalled(m: Machine)
    requires Inv(m) && Possible(m, Call)
    ensures !Called(m, m.phase.batch[m.phase.pos])
  {
    forall i: nat | i < m.phase.pos ensures m.phase.batch[i] != m.phase.batch[m.phase.pos] {
      assert !Twice(Batch(m), i, m.phase.pos);
    }
  }

  lemma StartResetKeeps(m: Machine)
    requires Inv(m) && Possible(m, StartReset)
    ensures Inv(Do(m, StartReset))
  {
    var now := Do(m, StartReset);
    assert m.phase.batch[0..] == m.phase.batch == m.phase.batch[..|m.phase.batch|];
    assert Batch(now) == Batch(m);
    forall n ensures FiledAt(now.q, n) { assert FiledAt(m.q, n); }
    forall id ensures ActiveAt(now.q, id) { assert ActiveAt(m.q, id); }
    forall a: nat ensures PlacedAt(now, a) { assert PlacedAt(m, a); }
    forall c: nat ensures OnceAt(now, c) { assert OnceAt(m, c); }
    forall i: nat, j: nat | i < j < |Batch(now)| ensures !Twice(Batch(now), i, j) { assert !Twice(Batch(m), i, j); }
  }

  lemma ResetKeeps(m: Machine)
    requires Inv(m) && Possible(m, ResetNext)
    ensures Inv(Do(m, ResetNext))
  {
    var now, addr := Do(m, ResetNext), m.phase.batch[m.phase.pos];
    assert Batch(m)[0] == addr && Batch(now) == Batch(m)[1..] && Batch(m) == [addr] + Batch(now);
    assert PlacedAt(m, addr);
    ResetAgrees(m.q, addr, m.phase.now);
    forall i: nat, j: nat | i < j < |Batch(now)| ensures !Twice(Batch(now), i, j) { assert !Twice(Batch(m), i + 1, j + 1); }
    assert addr !in Batch(now) by {
      forall j: nat | j < |Batch(now)| ensures Batch(now)[j] != addr { assert !Twice(Batch(m), 0, j + 1); }
    }
    forall a: nat ensures PlacedAt(now, a) { assert PlacedAt(m, a); }
    forall c: nat ensures OnceAt(now, c) { assert OnceAt(m, c); }
  }

  lemma StopKeeps(m: Machine)
    requires Inv(m) && Possible(m, Stop)
    ensures Inv(Do(m, Stop))
  {
    var now := Do(m, Stop);
    SizesAgree(m.q);
    assert Batch(m) == [];
    forall a: nat ensures PlacedAt(now, a) { assert PlacedAt(m, a); }
    forall c: nat ensures OnceAt(now, c) { assert OnceAt(m, c); }
  }

  lemma StepKeeps(m: Machine, a: Action)
    requires Inv(m)
    ensures Inv(Step(m, a))
  {
    if Possible(m, a) {
      match a
      case Create(addr, when, interval, repeat) => CreateKeeps(m, addr, when, interval, repeat);
      case File(addr) => FileKeeps(m, addr);
      case CancelId(id) => CancelKeeps(m, id);
      case Start(now) => StartKeeps(m, now);
      case Call => CallKeeps(m);
      case StartReset => StartResetKeeps(m);
      case ResetNext => ResetKeeps(m);
      case Stop => StopKeeps(m);
    }
  }

  lemma {:induction false} RunKeeps(m: Machine, acts: seq<Action>)
    requires Inv(m)
    ensures Inv(Exec(m, acts))
    decreases |acts|
  {
    if acts != [] {
      StepKeeps(m, acts[0]);
      RunKeeps(Step(m, acts[0]), acts[1..]);
    }
  }
}
