/** What holds in every state of every run, read off the invariant of the system. */
module ConnectionTheorems {
  import opened Bytes
  import opened SendQueues
  import opened Connections
  import opened Ownership
  import opened Chains
  import opened Peers
  import opened ConnectionSystem

  /** A state that some run from the start reaches. */
  ghost predicate Reached(chunkSize: nat, chunks: nat, acts: seq<Action>, s: State) {
    Assumed(Init(chunkSize, chunks), acts) && s == Exec(Init(chunkSize, chunks), acts)
  }

  /** The pool keeps its size and its chunks theirs. */
  ghost predicate SameShape(s: State, now: State) {
    && |now.place| == |s.place| && |now.mem| == |s.mem|
    && forall k :: 0 <= k < |s.mem| ==> |now.mem[k]| == |s.mem[k]|
  }

  lemma {:induction false} ShapeKept(s: State, acts: seq<Action>)
    ensures SameShape(s, Exec(s, acts))
    decreases |acts|
  {
    if acts != [] {
      assert SameShape(s, Step(s, acts[0]));
      ShapeKept(Step(s, acts[0]), acts[1..]);
    }
  }

  lemma ReachedInv(chunkSize: nat, chunks: nat, acts: seq<Action>, s: State)
    requires Reached(chunkSize, chunks, acts, s)
    ensures Inv(s) && |s.mem| == |s.place| == chunks
    ensures forall k :: 0 <= k < chunks ==> |s.mem[k]| == chunkSize
  {
    InitInv(chunkSize, chunks);
    RunKeeps(Init(chunkSize, chunks), acts);
    ShapeKept(Init(chunkSize, chunks), acts);
  }

  /** A run that goes one action further. */
  lemma {:induction false} RunOn(s: State, acts: seq<Action>, a: Action)
    requires Assumed(s, acts) && Obliges(Exec(s, acts), a)
    ensures Assumed(s, acts + [a]) && Exec(s, acts + [a]) == Step(Exec(s, acts), a)
    decreases |acts|
  {
    if acts == [] {
      assert acts + [a] == [a] && [a][1..] == [];
      assert Exec(Step(s, a), []) == Step(s, a);
    } else {
      assert (acts + [a])[1..] == acts[1..] + [a];
      RunOn(Step(s, acts[0]), acts[1..], a);
    }
  }

  /** No assertion of the code fails, no second receive, write, cancel or close is issued,
      and no coroutine is resumed or destroyed that is not there to be. */
  lemma NoFault(chunkSize: nat, chunks: nat, acts: seq<Action>, s: State)
    requires Reached(chunkSize, chunks, acts, s)
    ensures !s.fault
  {
    ReachedInv(chunkSize, chunks, acts, s);
  }

  /** The chunks of connection `i`: its chain, then its unreaped completions. */
  function Held(s: State, i: nat): seq<nat>
    requires i in s.conns
  {
    Idx(Slots(s.conns[i]))
  }

  /** Each chunk is in exactly one place: once in the ring, or once in the list of one
      connection. */
  lemma ChunkInOnePlace(chunkSize: nat, chunks: nat, acts: seq<Action>, s: State)
    requires Reached(chunkSize, chunks, acts, s)
    ensures NoDup(s.ring) && forall i <- s.conns :: NoDup(Held(s, i))
    ensures forall k :: k in s.ring ==> 0 <= k < chunks && forall i <- s.conns :: k !in Held(s, i)
    ensures forall i <- s.conns, j <- s.conns, k | i != j && k in Held(s, i) :: k < chunks && k !in Held(s, j)
    ensures forall k | 0 <= k < chunks && k !in s.ring :: exists i :: i in s.conns && k in Held(s, i)
  {
    ReachedInv(chunkSize, chunks, acts, s);
    forall i <- s.conns ensures Owns(s.place, OfConn(i), Held(s, i)) { assert Well(s, i); }
    forall k | 0 <= k < chunks && k !in s.ring ensures exists i :: i in s.conns && k in Held(s, i) {
      var i := s.place[k].id;
      assert i in s.conns || Owns(s.place, OfConn(i), []);
      assert k in Held(s, i);
    }
  }

  /** What the kernel received for a connection, in order, is what its coroutine consumed,
      then what its chain holds, then what the unreaped completions hold. */
  lemma ReceiveFidelity(chunkSize: nat, chunks: nat, acts: seq<Action>, s: State, i: nat)
    requires Reached(chunkSize, chunks, acts, s) && i in s.conns
    ensures var p := s.conns[i];
      p.e.wire == p.e.consumed + SlotBytes(s.mem, p.c.r.chain) + SlotBytes(s.mem, CqeSlots(p.e.rx.cqes))
  {
    ReachedInv(chunkSize, chunks, acts, s);
    assert Well(s, i);
    var p := s.conns[i];
    SlotBytesConcat(s.mem, p.c.r.chain, CqeSlots(p.e.rx.cqes));
  }

  /** What the kernel accepted, then what is still queued, is all that was ever appended;
      the batch in flight is a prefix of what is queued. */
  lemma SendIntegrity(chunkSize: nat, chunks: nat, acts: seq<Action>, s: State, i: nat)
    requires Reached(chunkSize, chunks, acts, s) && i in s.conns
    ensures var w, tx := s.conns[i].c.w, s.conns[i].e.tx;
      && Unreaped(tx.wr) <= |Pending(w.q)|
      && tx.accepted + Pending(w.q)[Unreaped(tx.wr)..] == tx.appended
      && (tx.wr != WriteNone ==> Flatten(w.batch) <= Pending(w.q))
  {
    ReachedInv(chunkSize, chunks, acts, s);
    assert Well(s, i);
    var w := s.conns[i].c.w;
    FlattenSplit(w.q.frags, w.q.cur);
  }

  /** When the loop is not inside a coroutine, the read status tells the truth: stopped
      exactly when no receive is on its way, armed or unreaped, and exactly when the
      context holds no reference. */
  lemma ReadProtocol(chunkSize: nat, chunks: nat, acts: seq<Action>, s: State, i: nat)
    requires Reached(chunkSize, chunks, acts, s) && i in s.conns && s.focus == Nobody
    ensures var r, rx := s.conns[i].c.r, s.conns[i].e.rx;
      && (r.status == Stopped <==> rx.recv == RecvNone)
      && (r.status == Stopped <==> !r.holder)
      && (rx.cqes != [] ==> r.status != Stopped)
  {
    ReachedInv(chunkSize, chunks, acts, s);
    assert Well(s, i);
  }

  /** A handle is set exactly when the coroutine sleeps in that awaiter; a closed
      connection has no sleeping coroutine. */
  lemma HandlesTruthful(chunkSize: nat, chunks: nat, acts: seq<Action>, s: State, i: nat)
    requires Reached(chunkSize, chunks, acts, s) && i in s.conns && s.focus == Nobody
    ensures var c, co := s.conns[i].c, s.conns[i].e.co;
      && (c.r.handle <==> co == AtRecv) && (c.w.handle <==> co == AtSend)
      && (c.closing ==> !c.r.handle && !c.w.handle)
      && (c.task <==> co !in {NotStarted, Destroyed})
  {
    ReachedInv(chunkSize, chunks, acts, s);
    assert Well(s, i);
  }

  /** No wake-up is lost: a sleeping reader has no data and a receive outstanding, a
      sleeping writer has a write in flight, and output never waits without one. */
  lemma NoLostWakeup(chunkSize: nat, chunks: nat, acts: seq<Action>, s: State, i: nat)
    requires Reached(chunkSize, chunks, acts, s) && i in s.conns && s.focus == Nobody
    ensures var p := s.conns[i];
      && (p.e.co == AtRecv ==> p.c.r.chain == [] && p.e.rx.recv != RecvNone)
      && (p.e.co == AtSend ==> |Pending(p.c.w.q)| > p.c.cfg.outHighWater && p.e.tx.wr != WriteNone)
      && (!p.c.closing && Pending(p.c.w.q) != [] ==> p.e.tx.wr != WriteNone)
  {
    ReachedInv(chunkSize, chunks, acts, s);
    assert Well(s, i);
  }

  /** While reading, both marks are respected; each multishot was cancelled at most once. */
  lemma Backpressure(chunkSize: nat, chunks: nat, acts: seq<Action>, s: State, i: nat)
    requires Reached(chunkSize, chunks, acts, s) && i in s.conns
    ensures var c, rx := s.conns[i].c, s.conns[i].e.rx;
      && (c.r.status == Reading ==> ChainLen(c.r.chain) <= c.cfg.highWater && |c.r.chain| <= c.cfg.highWaterChunks)
      && (c.r.status == Reading ==> rx.cancels == 0) && (c.r.status == Canceling ==> rx.cancels == 1)
  {
    ReachedInv(chunkSize, chunks, acts, s);
    assert Well(s, i);
  }

  /** A cancel goes out only when a mark is passed, by at most one chunk, and never while
      another receive of the same context is on its way. */
  lemma CancelOvershoot(chunkSize: nat, chunks: nat, acts: seq<Action>, s: State, i: nat)
    requires Reached(chunkSize, chunks, acts, s) && i in s.conns && s.focus == Nobody
    requires s.conns[i].e.rx.cqes != []
    ensures var p := s.conns[i];
      var (d, fx) := TakeRead(p.c, p.e.rx.cqes[0]);
      fx.cancel ==>
        && OverIn(d.cfg, d.r.chain)
        && ChainLen(d.r.chain) <= d.cfg.highWater + chunkSize && |d.r.chain| <= d.cfg.highWaterChunks + 1
        && p.e.rx.recv in {RecvArmed, RecvEnded}
  {
    ReachedInv(chunkSize, chunks, acts, s);
    assert Well(s, i);
    var p := s.conns[i];
    var cqe := p.e.rx.cqes[0];
    if cqe.res > 0 {
      ChainLenSnoc(p.c.r.chain, Slot(cqe.idx, 0, cqe.res));
      assert Slots(p)[|p.c.r.chain|] == Slot(cqe.idx, 0, cqe.res);
    }
  }

  /** The socket is closed once, the close callback runs once and the task is destroyed at
      most once, and only a closed connection has had any of it. */
  lemma CloseHappensOnce(chunkSize: nat, chunks: nat, acts: seq<Action>, s: State, i: nat)
    requires Reached(chunkSize, chunks, acts, s) && i in s.conns
    ensures var c, e := s.conns[i].c, s.conns[i].e;
      && e.tally.closes == e.tally.callbacks == (if c.closing then 1 else 0)
      && e.tally.destroys == (if e.co == Destroyed then 1 else 0)
  {
    ReachedInv(chunkSize, chunks, acts, s);
    assert Well(s, i);
  }

  lemma ReadStaysClosed(c: Conn, cqe: Cqe)
    requires c.closing
    ensures OnRead(c, cqe).c.closing
  {
    assert TakeRead(c, cqe).0.closing;
  }

  lemma WriteStaysClosed(c: Conn, res: int)
    requires c.closing
    ensures OnWrite(c, res).c.closing
  {
  }

  lemma CloseStays(s: State, a: Action, i: nat)
    requires i in s.conns && s.conns[i].c.closing && a != Free(i)
    ensures i in Step(s, a).conns && Step(s, a).conns[i].c.closing
  {
    if Possible(s, a) {
      match a
      case ReapReadOf(j) => if j == i { ReadStaysClosed(s.conns[i].c, s.conns[i].e.rx.cqes[0]); }
      case ReapWriteOf(j) => if j == i { WriteStaysClosed(s.conns[i].c, s.conns[i].e.tx.wr.res); }
      case _ =>
    }
  }

  /** Once closed, a connection stays closed for the rest of the run, until it is freed:
      its socket is closed no second time and nothing is appended to its output. */
  lemma {:induction false} ClosedForGood(s: State, acts: seq<Action>, i: nat)
    requires Inv(s) && Assumed(s, acts) && i in s.conns && s.conns[i].c.closing
    requires Free(i) !in acts
    ensures var now := Exec(s, acts);
      && i in now.conns && now.conns[i].c.closing
      && now.conns[i].e.tally.closes == 1 && now.conns[i].e.tally.callbacks == 1
      && now.conns[i].e.tx.appended == s.conns[i].e.tx.appended
    decreases |acts|
  {
    if acts == [] {
      assert Well(s, i);
    } else {
      CloseStays(s, acts[0], i);
      NothingAppended(s, acts[0], i);
      StepKeeps(s, acts[0]);
      ClosedForGood(Step(s, acts[0]), acts[1..], i);
    }
  }

  lemma NothingAppended(s: State, a: Action, i: nat)
    requires i in s.conns && s.conns[i].c.closing && a != Free(i)
    ensures i in Step(s, a).conns && Step(s, a).conns[i].e.tx.appended == s.conns[i].e.tx.appended
  {
  }

  /** A connection object is freed only when nothing in the loop or the kernel refers to
      its contexts any more. */
  lemma FreedUnreferenced(chunkSize: nat, chunks: nat, acts: seq<Action>, s: State, i: nat)
    requires Reached(chunkSize, chunks, acts, s) && Possible(s, Free(i))
    ensures s.conns[i].e.rx == Rx(RecvNone, [], s.conns[i].e.rx.cancels) && s.conns[i].e.tx.wr == WriteNone
    ensures s.conns[i].e.co == NotStarted || s.conns[i].e.co == Destroyed
  {
    ReachedInv(chunkSize, chunks, acts, s);
    assert Well(s, i);
  }
}
