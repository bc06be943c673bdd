/** Submission of requests with backpressure (`IoUringLoop`): below the low-water mark of free
    SQ entries a request waits in a queue, which the loop drains once per iteration. */
module Submissions {
  import opened Bytes

  const DRAIN_MAX: nat := 100

  /** `space` is the number of free SQ entries; a request is the context it is made for.
      `asked`, `deferred`, `drained` and `issued` log what was requested, what had to wait,
      what left the queue and what got an SQE; `fault` says that an SQE was missing. */
  datatype SubQ = SubQ(entries: nat, low: nat, space: nat, waiting: seq<nat>,
                       asked: seq<nat>, deferred: seq<nat>, drained: seq<nat>, issued: seq<nat>, fault: bool)

  function NewSubQ(entries: nat, low: nat): SubQ {
    SubQ(entries, low, entries, [], [], [], [], [], false)
  }

  /** Fills one SQE for the request; there must be one. */
  function Issue(q: SubQ, r: nat): SubQ {
    if q.space == 0 then q.(fault := true)
    else q.(space := q.space - 1, issued := q.issued + [r])
  }

  /** `submitReadMultishut`, `submitWriteMsg` and `submitAcceptMultishut`. */
  function Submit(q: SubQ, r: nat): SubQ {
    var a := q.(asked := q.asked + [r]);
    if q.space < q.low then a.(waiting := q.waiting + [r], deferred := q.deferred + [r])
    else Issue(a, r)
  }

  /** `io_uring_submit`: the kernel takes every filled entry. */
  function SubmitAll(q: SubQ): SubQ { q.(space := q.entries) }

  /** `getIoUringSqe(true)`: how the read of the eventfd gets its SQE. */
  function TakeForced(q: SubQ): SubQ {
    var p := if q.space == 0 then SubmitAll(q) else q;
    if p.space == 0 then p.(fault := true) else p.(space := p.space - 1)
  }

  /** `submitCancel`. */
  function SubmitCancel(q: SubQ): SubQ { SubmitAll(TakeForced(q)) }

  /** How many waiting requests a drain issues. */
  function DrainCount(q: SubQ): nat {
    Min(|q.waiting|, Min(DRAIN_MAX, if q.space > q.low then q.space - q.low else 0))
  }

  /** One turn of the drain loop. */
  function DrainOne(q: SubQ): SubQ {
    if q.waiting == [] then q
    else Issue(q, q.waiting[0]).(waiting := q.waiting[1..], drained := q.drained + [q.waiting[0]])
  }

  /** The state after `n` turns of the drain loop. */
  function DrainedBy(q: SubQ, n: nat): SubQ
    requires n <= DrainCount(q)
  {
    q.(space := q.space - n, waiting := q.waiting[n..],
       drained := q.drained + q.waiting[..n], issued := q.issued + q.waiting[..n])
  }

  /** `doingSubmitWaitingTask`: exactly so many requests, from the front. */
  function Drain(q: SubQ): SubQ { DrainedBy(q, DrainCount(q)) }

  // ----- The object ----------------------------------------------------------------

  class SubmissionQueue {
    const entries: nat
    const low: nat
    var space: nat
    var waiting: seq<nat>
    ghost var q: SubQ

    ghost predicate Valid()
      reads this
    {
      q.entries == entries && q.low == low && q.space == space && q.waiting == waiting && space <= entries
    }

    constructor (entries: nat, low: nat)
      ensures Valid() && q == NewSubQ(entries, low)
    {
      this.entries, this.low := entries, low;
      space, waiting := entries, [];
      q := NewSubQ(entries, low);
    }

    /** `getIoUringSqe`; null when there is no free entry and, if forced, none after a submit. */
    method GetSqe(force: bool) returns (ok: bool)
      requires Valid()
      modifies this
      ensures Valid()
      ensures ok <==> old(space) > 0 || (force && entries > 0)
      ensures q == if ok then old(q).(space := (if old(space) > 0 then old(space) else entries) - 1)
                   else old(q)
    {
      if space == 0 && force { space := entries; }
      if space == 0 { return false; }
      space := space - 1;
      q := q.(space := space);
      return true;
    }

    method IssueRequest(r: nat)
      requires Valid()
      modifies this
      ensures Valid() && q == Issue(old(q), r)
    {
      var ok := GetSqe(false);
      if ok { q := q.(issued := q.issued + [r]); } else { q := q.(fault := true); }
    }

    method SubmitRequest(r: nat)
      requires Valid()
      modifies this
      ensures Valid() && q == Submit(old(q), r)
      ensures if old(space) < low then waiting == old(waiting) + [r] && space == old(space)
              else waiting == old(waiting) && (old(space) > 0 ==> space == old(space) - 1 && q.issued == old(q).issued + [r])
    {
      q := q.(asked := q.asked + [r]);
      if space < low {
        waiting := waiting + [r];
        q := q.(waiting := waiting, deferred := q.deferred + [r]);
      } else {
        IssueRequest(r);
      }
    }

    method SubmitEverything()
      requires Valid()
      modifies this
      ensures Valid() && q == SubmitAll(old(q))
    {
      space := entries;
      q := SubmitAll(q);
    }

    /** A request that must get its SQE: a cancel, or the read of the eventfd. */
    method TakeForcedSqe()
      requires Valid()
      modifies this
      ensures Valid() && q == TakeForced(old(q))
    {
      var ok := GetSqe(true);
      if !ok { q := q.(fault := true); }
    }

    method CancelRequest()
      requires Valid()
      modifies this
      ensures Valid() && q == SubmitCancel(old(q))
    {
      TakeForcedSqe();
      SubmitEverything();
    }

    /** The drain loop, against the closed form. */
    method DrainWaiting()
      requires Valid()
      modifies this
      ensures Valid() && q == Drain(old(q))
    {
      var processed := 0;
      ghost var was := q;
      assert q.drained + waiting[..0] == q.drained && q.issued + waiting[..0] == q.issued;
      while waiting != [] && space > low && processed < DRAIN_MAX
        invariant Valid() && processed <= DrainCount(was) && q == DrainedBy(was, processed)
        decreases |waiting|
      {
        DrainedMore(was, processed);
        IssueRequest(waiting[0]);
        q := q.(waiting := waiting[1..], drained := q.drained + [waiting[0]]);
        waiting := waiting[1..];
        processed := processed + 1;
      }
    }
  }

  lemma DrainedMore(q: SubQ, n: nat)
    requires n < DrainCount(q)
    ensures DrainedBy(q, n + 1) == DrainOne(DrainedBy(q, n))
  {
    assert q.waiting[..n + 1] == q.waiting[..n] + [q.waiting[n]];
    assert q.waiting[n..][1..] == q.waiting[n + 1..];
    assert q.drained + q.waiting[..n + 1] == q.drained + q.waiting[..n] + [q.waiting[n]];
    assert q.issued + q.waiting[..n + 1] == q.issued + q.waiting[..n] + [q.waiting[n]];
  }

  // ----- Runs ------------------------------------------------------------------------

  /** Requests, cancels and reads of the eventfd come at any time; the loop enters the kernel
      and drains the queue once per iteration. */
  datatype Action = Request(r: nat) | Cancel | ReadEvent | Enter | DrainQueue

  function Step(q: SubQ, a: Action): SubQ {
    match a
    case Request(r) => Submit(q, r)
    case Cancel => SubmitCancel(q)
    case ReadEvent => TakeForced(q)
    case Enter => SubmitAll(q)
    case DrainQueue => Drain(q)
  }

  function Exec(q: SubQ, acts: seq<Action>): SubQ
    decreases |acts|
  {
    if acts == [] then q else Exec(Step(q, acts[0]), acts[1..])
  }

  /** Every request has been issued once or waits once; those that waited leave in order. */
  ghost predicate Conserved(q: SubQ) {
    && multiset(q.issued) + multiset(q.waiting) == multiset(q.asked)
    && q.drained + q.waiting == q.deferred
  }

  ghost predicate Inv(q: SubQ) {
    q.space <= q.entries && !q.fault && Conserved(q)
  }

  lemma SubmitKeeps(q: SubQ, r: nat)
    requires Inv(q) && q.low >= 1
    ensures Inv(Submit(q, r))
  {
    assert q.drained + (q.waiting + [r]) == q.deferred + [r];
  }

  lemma DrainKeeps(q: SubQ)
    requires Inv(q)
    ensures Inv(Drain(q))
  {
    var n := DrainCount(q);
    assert q.waiting == q.waiting[..n] + q.waiting[n..];
    assert (q.drained + q.waiting[..n]) + q.waiting[n..] == q.drained + (q.waiting[..n] + q.waiting[n..]);
  }

  lemma StepKeeps(q: SubQ, a: Action)
    requires Inv(q) && q.low >= 1 && q.entries >= 1
    ensures Inv(Step(q, a)) && Step(q, a).low == q.low && Step(q, a).entries == q.entries
  {
    match a {
      case Request(r) => SubmitKeeps(q, r);
      case DrainQueue => DrainKeeps(q);
      case _ =>
    }
  }

  lemma {:induction false} RunKeeps(q: SubQ, acts: seq<Action>)
    requires Inv(q) && q.low >= 1 && q.entries >= 1
    ensures Inv(Exec(q, acts))
    decreases |acts|
  {
    if acts != [] {
      StepKeeps(q, acts[0]);
      RunKeeps(Step(q, acts[0]), acts[1..]);
    }
  }

  /** In every run with a positive mark no SQE is missing, no request is lost or issued twice,
      and those that had to wait are issued in the order in which they came. */
  lemma Conservation(entries: nat, low: nat, acts: seq<Action>)
    requires entries >= 1 && low >= 1
    ensures var q := Exec(NewSubQ(entries, low), acts);
      && !q.fault
      && multiset(q.issued) + multiset(q.waiting) == multiset(q.asked)
      && q.drained + q.waiting == q.deferred
  {
    assert Inv(NewSubQ(entries, low));
    RunKeeps(NewSubQ(entries, low), acts);
  }

  // ----- When a request waits ------------------------------------------------------------

  /** A request waits exactly if fewer entries than the mark are free; otherwise it is issued at
      once and takes one entry. */
  lemma RequestExact(q: SubQ, r: nat)
    ensures var n := Step(q, Request(r));
      && n.asked == q.asked + [r] && n.drained == q.drained
      && (if q.space < q.low then
            n.waiting == q.waiting + [r] && n.deferred == q.deferred + [r] && n.issued == q.issued && n.space == q.space
          else
            n.waiting == q.waiting && n.deferred == q.deferred &&
            (q.space > 0 ==> n.issued == q.issued + [r] && n.space == q.space - 1 && n.fault == q.fault))
  {
  }

  /** A drain issues the first min(queue length, 100, free entries above the mark) that wait. */
  lemma DrainExact(q: SubQ)
    ensures var n, d := Min(|q.waiting|, Min(100, if q.space > q.low then q.space - q.low else 0)), Step(q, DrainQueue);
      && d.issued == q.issued + q.waiting[..n] && d.drained == q.drained + q.waiting[..n] && d.waiting == q.waiting[n..]
      && d.space + n == q.space && d.asked == q.asked && d.deferred == q.deferred && d.fault == q.fault
  {
  }

  /** A forced request takes an entry of the ring, which is submitted first if it is full. */
  lemma ForcedExact(q: SubQ)
    requires q.entries >= 1
    ensures var n := Step(q, ReadEvent);
      n == q.(space := (if q.space == 0 then q.entries else q.space) - 1)
    ensures Step(q, Cancel) == q.(space := q.entries)
  {
  }

  /** How many entries requests and drains leave free for those that must not wait. */
  function Reserve(q: SubQ): nat { if q.low == 0 then 0 else Min(q.entries, q.low - 1) }

  /** Requests, cancels, drains and submissions, in whatever order, never eat into the reserve. */
  lemma {:induction false} ReserveKept(q: SubQ, acts: seq<Action>)
    requires q.space >= Reserve(q) && ReadEvent !in acts
    ensures Exec(q, acts).space >= Reserve(q)
    decreases |acts|
  {
    if acts != [] {
      var n := Step(q, acts[0]);
      assert n.space >= Reserve(q) && Reserve(n) == Reserve(q);
      ReserveKept(n, acts[1..]);
    }
  }

  /** The same over every run, with `k` reads of the eventfd in it: each takes one entry at most. */
  lemma {:induction false} ReserveShrinks(q: SubQ, acts: seq<Action>)
    requires q.entries >= 1
    ensures Exec(q, acts).space + Reads(acts) >= Min(q.space, Reserve(q))
    decreases |acts|
  {
    if acts != [] {
      var n := Step(q, acts[0]);
      assert Reserve(n) == Reserve(q) && n.entries == q.entries;
      ReserveShrinks(n, acts[1..]);
    }
  }

  function Reads(acts: seq<Action>): nat {
    if acts == [] then 0 else (if acts[0] == ReadEvent then 1 else 0) + Reads(acts[1..])
  }

  // ----- Which marks are safe -----------------------------------------------------------

  function Requests(n: nat): seq<Action> { seq(n, _ => Request(0)) }

  /** With mark zero a burst finds no SQE once the ring is full. */
  lemma {:induction false} BurstFaults(q: SubQ)
    requires q.low == 0
    ensures Exec(q, Requests(q.space + 1)).fault
    decreases q.space
  {
    var acts := Requests(q.space + 1);
    assert acts[1..] == Requests(q.space);
    if q.space == 0 {
      assert Requests(0) == [];
    } else {
      BurstFaults(Submit(q, 0));
    }
  }

  /** An SQE is never missing, whatever the requests, exactly when the mark is positive. */
  lemma MarkExact(entries: nat, low: nat)
    requires entries >= 1
    ensures (forall acts: seq<Action> :: !Exec(NewSubQ(entries, low), acts).fault) <==> low >= 1
  {
    var q := NewSubQ(entries, low);
    if low >= 1 {
      forall acts: seq<Action> ensures !Exec(q, acts).fault { Conservation(entries, low, acts); }
    } else {
      BurstFaults(q);
      assert exists acts: seq<Action> :: Exec(q, acts).fault;
    }
  }

  // ----- Waiting requests get out exactly if the mark is below the ring size -------------

  function Turns(n: nat): seq<Action> { if n == 0 then [] else [Enter, DrainQueue] + Turns(n - 1) }

  /** How many waiting requests an iteration can issue at most. */
  function Rate(q: SubQ): nat
    requires q.low <= q.entries
  {
    Min(DRAIN_MAX, q.entries - q.low)
  }

  /** One iteration of the loop without new requests. */
  function OneTurn(q: SubQ): SubQ { Drain(SubmitAll(q)) }

  lemma OneTurnDrains(q: SubQ)
    requires q.low < q.entries
    ensures var p := OneTurn(q);
      p.low == q.low && p.entries == q.entries && p.waiting == q.waiting[Min(|q.waiting|, Rate(q))..]
  {
  }

  /** `n` of them. */
  function AfterTurns(q: SubQ, n: nat): SubQ
    decreases n
  {
    if n == 0 then q else AfterTurns(OneTurn(q), n - 1)
  }

  lemma {:induction false} TurnsAre(q: SubQ, n: nat)
    ensures Exec(q, Turns(n)) == AfterTurns(q, n)
    decreases n
  {
    if n > 0 {
      var acts := Turns(n);
      assert acts[0] == Enter && acts[1..][0] == DrainQueue && acts[1..][1..] == Turns(n - 1);
      assert Exec(SubmitAll(q), acts[1..]) == Exec(OneTurn(q), Turns(n - 1));
      TurnsAre(OneTurn(q), n - 1);
    }
  }

  /** How many requests `n` iterations can issue at `m` each. */
  function Capacity(n: nat, m: nat): nat { if n == 0 then 0 else m + Capacity(n - 1, m) }

  lemma {:induction false} CapacityIs(n: nat, m: nat)
    ensures Capacity(n, m) == n * m
  {
    if n > 0 { CapacityIs(n - 1, m); }
  }

  lemma DropTwice(w: seq<nat>, v: seq<nat>, r: seq<nat>, m: nat, k: nat)
    requires v == w[Min(|w|, m)..] && r == v[Min(|v|, k)..]
    ensures r == w[Min(|w|, m + k)..]
  {
  }

  lemma {:induction false} CapacityDrains(q: SubQ, n: nat)
    requires q.low < q.entries
    ensures AfterTurns(q, n).waiting == q.waiting[Min(|q.waiting|, Capacity(n, Rate(q)))..]
    decreases n
  {
    if n > 0 {
      var p, m := OneTurn(q), Rate(q);
      OneTurnDrains(q);
      CapacityDrains(p, n - 1);
      DropTwice(q.waiting, p.waiting, AfterTurns(p, n - 1).waiting, m, Capacity(n - 1, m));
    }
  }

  /** Without new requests, `n` iterations issue the first `n * Rate(q)` waiting requests. */
  lemma TurnsDrain(q: SubQ, n: nat)
    requires q.low < q.entries
    ensures Exec(q, Turns(n)).waiting == q.waiting[Min(|q.waiting|, n * Rate(q))..]
  {
    TurnsAre(q, n);
    CapacityDrains(q, n);
    CapacityIs(n, Rate(q));
  }

  lemma {:induction false} CapacityGrows(n: nat, m: nat)
    requires m >= 1
    ensures Capacity(n, m) >= n
  {
    if n > 0 { CapacityGrows(n - 1, m); }
  }

  /** With the mark at or above the ring size a request that waits waits for ever. */
  lemma {:induction false} NeverDrained(q: SubQ, acts: seq<Action>)
    requires q.entries <= q.low && q.space <= q.entries
    ensures q.waiting <= Exec(q, acts).waiting && Exec(q, acts).drained == q.drained
    decreases |acts|
  {
    if acts != [] {
      var p := Step(q, acts[0]);
      assert acts[0].DrainQueue? ==> p.waiting == q.waiting && p.drained == q.drained;
      NeverDrained(p, acts[1..]);
    }
  }

  /** Waiting requests can be issued exactly when the mark is below the ring size. */
  lemma DrainsExactly(q: SubQ)
    requires q.waiting != [] && q.space <= q.entries
    ensures (exists acts: seq<Action> :: Exec(q, acts).waiting == []) <==> q.low < q.entries
  {
    if q.low < q.entries {
      var n := |q.waiting|;
      TurnsAre(q, n);
      CapacityDrains(q, n);
      CapacityGrows(n, Rate(q));
      assert Exec(q, Turns(n)).waiting == [];
    } else {
      forall acts: seq<Action> ensures Exec(q, acts).waiting != [] { NeverDrained(q, acts); }
    }
  }
}
