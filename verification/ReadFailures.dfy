/** What a receive that ends without data and without a fatal error does: whether reading
    pauses, and what a sleeping reader is told. */
module ReadFailures {
  import opened Bytes
  import opened Connections
  import opened Chains
  import opened Peers
  import opened ConnectionSystem
  import opened ConnectionTheorems

  // ----- Whether reading pauses ----------------------------------------------------

  /** A final completion without data that is not fatal (an exhausted ring is one) leaves no
      receive outstanding exactly if a cancel had been sent; otherwise the next receive is
      asked for at once, whether or not a chunk has come back. */
  lemma PauseExact(s: State, i: nat)
    requires Inv(s) && s.focus == Nobody && i in s.conns && s.conns[i].e.rx.cqes != []
    requires var res := s.conns[i].e.rx.cqes[0].res; res <= 0 && !ReadFatal(res)
    ensures var now := Step(s, ReapReadOf(i));
      && (now.conns[i].e.rx.recv == RecvNone <==> s.conns[i].c.r.status == Canceling)
      && (now.conns[i].e.rx.recv == RecvAsked <==> s.conns[i].c.r.status == Reading)
  {
    assert Well(s, i);
    PausePeer(s.conns[i]);
  }

  lemma PausePeer(p: Peer)
    requires PeerInv(p, Idle) && p.e.rx.cqes != []
    requires p.e.rx.cqes[0].res <= 0 && !ReadFatal(p.e.rx.cqes[0].res)
    ensures p.c.r.status != Stopped
    ensures ReapRead(p).p.e.rx.recv == if p.c.r.status == Canceling then RecvNone else RecvAsked
  {
    ReapCqes(p.e.rx);
  }

  /** An armed receive of a connection that is reading, its coroutine not waiting for data. */
  ghost predicate Busy(p: Peer) {
    p.c.r.status == Reading && p.e.rx == Rx(RecvArmed, [], 0) && p.e.co != AtRecv
  }

  /** The ring is exhausted, the completion is handled, the next receive is submitted. */
  function Round(i: nat): seq<Action> {
    [End(i, -ENOBUFS), ReapReadOf(i), IssueRead(i)]
  }

  function Rounds(i: nat, n: nat): seq<Action> {
    if n == 0 then [] else Round(i) + Rounds(i, n - 1)
  }

  /** Handling such a completion changes nothing but that a receive is asked for again. */
  lemma AskedAgain(p: Peer)
    requires Busy(p) && p.c.r.holder && !p.c.r.handle
    ensures ReapRead(KernelEnd(p, -ENOBUFS)) == Turn(p.(e := p.e.(rx := Rx(RecvAsked, [], 0))), Idle, false)
  {
    var q := KernelEnd(p, -ENOBUFS);
    var cqe := Cqe(-ENOBUFS, false, 0);
    assert q.e.rx == Rx(RecvEnded, [cqe], 0) && [cqe][1..] == [];
    assert TakeRead(q.c, cqe) == (p.c, NONE);
    assert SubmitRead(p.c) == p.c;
  }

  lemma BusyRetries(p: Peer)
    requires PeerInv(p, Idle) && Busy(p)
    ensures ReapRead(KernelEnd(p, -ENOBUFS)) == Turn(p.(e := p.e.(rx := Rx(RecvAsked, [], 0))), Idle, false)
  {
    AskedAgain(p);
  }

  lemma EndedStep(s: State, i: nat)
    requires i in s.conns && s.conns[i].e.rx.recv == RecvArmed
    ensures Step(s, End(i, -ENOBUFS)) == Patch(s, i, KernelEnd(s.conns[i], -ENOBUFS))
  {
  }

  lemma ThreeSteps(s: State, a: Action, b: Action, c: Action, rest: seq<Action>)
    ensures Exec(s, [a, b, c] + rest) == Exec(Step(Step(Step(s, a), b), c), rest)
  {
    var acts := [a, b, c] + rest;
    assert acts[1..] == [b, c] + rest && acts[1..][1..] == [c] + rest && acts[1..][1..][1..] == rest;
    assert Exec(s, acts) == Exec(Step(s, a), acts[1..]) == Exec(Step(Step(s, a), b), acts[1..][1..]);
  }

  /** Nothing is asked of the environment but that it does not send or fail to write. */
  lemma {:induction false} QuietAssumed(s: State, acts: seq<Action>)
    requires forall a <- acts :: !a.Send? && !a.Wrote?
    ensures Assumed(s, acts)
    decreases |acts|
  {
    if acts != [] {
      assert acts[0] in acts;
      QuietAssumed(Step(s, acts[0]), acts[1..]);
    }
  }

  lemma {:induction false} RoundsQuiet(i: nat, n: nat)
    ensures forall a <- Rounds(i, n) :: !a.Send? && !a.Wrote?
  {
    if n > 0 { RoundsQuiet(i, n - 1); }
  }

  lemma ReapStep(s: State, i: nat, p: Peer)
    requires s.focus == Nobody && !s.fault && p.e.rx.cqes != [] && i in s.conns && s.conns[i] == p
    requires ReapRead(p).mode == Idle && !ReapRead(p).fault
    ensures Step(s, ReapReadOf(i)) == Patch(s, i, ReapRead(p).p)
  {
  }

  /** One round leads back to the same state. */
  lemma RoundIsIdle(s: State, i: nat)
    requires Inv(s) && s.focus == Nobody && i in s.conns && Busy(s.conns[i])
    ensures Step(Step(Step(s, End(i, -ENOBUFS)), ReapReadOf(i)), IssueRead(i)) == s
  {
    assert Well(s, i);
    var q := KernelEnd(s.conns[i], -ENOBUFS);
    BusyRetries(s.conns[i]);
    EndedStep(s, i);
    ReapStep(Patch(s, i, q), i, q);
    BackAgain(s, i, q, ReapRead(q).p);
  }

  lemma BackAgain(s: State, i: nat, q: Peer, r: Peer)
    requires i in s.conns && r == s.conns[i].(e := s.conns[i].e.(rx := Rx(RecvAsked, [], 0)))
    requires s.conns[i].e.rx == Rx(RecvArmed, [], 0)
    ensures Step(Patch(Patch(s, i, q), i, r), IssueRead(i)) == s
  {
    var two := Patch(Patch(s, i, q), i, r);
    assert two.conns == s.conns[i := r];
    assert Peers.IssueRead(r) == s.conns[i];
    assert two.conns[i := s.conns[i]] == s.conns;
  }

  /** While the ring stays exhausted the loop goes round any number of times: nothing is
      consumed, no chunk comes back, and no state of the system changes. */
  lemma {:induction false} RetriesForever(s: State, i: nat, n: nat)
    requires Inv(s) && s.focus == Nobody && i in s.conns && Busy(s.conns[i])
    ensures Exec(s, Rounds(i, n)) == s && Assumed(s, Rounds(i, n))
    decreases n
  {
    RoundsQuiet(i, n);
    QuietAssumed(s, Rounds(i, n));
    if n > 0 {
      ThreeSteps(s, End(i, -ENOBUFS), ReapReadOf(i), IssueRead(i), Rounds(i, n - 1));
      RoundIsIdle(s, i);
      RetriesForever(s, i, n - 1);
    }
  }

  const ROOMY := Config(9, 9, 9, 1)

  /** The system with one connection, that of `p`, and one chunk of one byte. */
  ghost predicate Alone(s: State, p: Peer, focus: Focus, ring: seq<nat>) {
    s.conns == map[0 := p] && s.focus == focus && s.ring == ring && |s.mem| == 1 && |s.mem[0]| == 1
  }

  /** A coroutine that has asked for data and sleeps; the receive is at `recv`. */
  function Sleeper(recv: RecvLoc): Peer {
    Peer(NewConn(ROOMY).(task := true, r := ReadContext(Reading, true, true, false, [])),
         NewPeer(ROOMY).e.(co := AtRecv, rx := Rx(recv, [], 0)))
  }

  /** A byte has arrived for it in the only chunk. */
  function Served(): Peer {
    var p := Sleeper(RecvArmed);
    p.(e := p.e.(rx := Rx(RecvArmed, [Cqe(1, true, 0)], 0), wire := [7]))
  }

  lemma OpensReached() returns (acts: seq<Action>, s: State)
    ensures Reached(1, 1, acts, s) && Alone(s, Establish(NewPeer(ROOMY)).p, On(0, In(KReturn)), [0])
  {
    s, acts := Init(1, 1), [];
    acts, s := Then(acts, s, Accept(0, ROOMY));
    assert Alone(s, NewPeer(ROOMY), Nobody, [0]);
    acts, s := Then(acts, s, Start(0));
  }

  lemma SleeperReached() returns (acts: seq<Action>, s: State)
    ensures Reached(1, 1, acts, s) && Alone(s, Sleeper(RecvArmed), Nobody, [0])
  {
    acts, s := OpensReached();
    acts, s := Then(acts, s, Recv);
    assert Alone(s, Sleeper(RecvAsked), On(0, Out(KReturn)), [0]);
    acts, s := Then(acts, s, Proceed);
    assert Alone(s, Sleeper(RecvAsked), Nobody, [0]);
    acts, s := Then(acts, s, IssueRead(0));
  }

  /** It was resumed and has the byte in its chain; `co` is where the coroutine is. */
  function Sated(co: Co): Peer {
    var p := Served();
    p.(c := p.c.(r := ReadContext(Reading, true, false, false, [Slot(0, 0, 1)])),
       e := p.e.(co := co, rx := Rx(RecvArmed, [], 0)))
  }

  lemma ByteArrived()
    ensures KernelData(Sleeper(RecvArmed), 0, [7], true) == Served()
  {
    assert [] + [Cqe(1, true, 0)] == [Cqe(1, true, 0)] && [] + [7 as byte] == [7];
  }

  lemma ByteTaken()
    ensures ReapRead(Served()).mode == In(KReturn) && ReapRead(Served()).p == Sated(Active)
  {
    assert [] + [Slot(0, 0, 1)] == [Slot(0, 0, 1)];
    ChainLenSnoc([], Slot(0, 0, 1));
    assert [Cqe(1, true, 0)][1..] == [];
  }

  lemma ServedReached() returns (acts: seq<Action>, s: State)
    ensures Reached(1, 1, acts, s) && Alone(s, Served(), Nobody, [])
  {
    acts, s := SleeperReached();
    ByteArrived();
    acts, s := Then(acts, s, Data(0, [7], true));
  }

  lemma SatedReached() returns (acts: seq<Action>, s: State)
    ensures Reached(1, 1, acts, s) && Alone(s, Sated(Active), On(0, In(KReturn)), [])
  {
    acts, s := ServedReached();
    ByteTaken();
    acts, s := Then(acts, s, ReapReadOf(0));
  }

  /** The coroutine waits, gets a byte, does not read it and is done; its connection goes on
      reading with the only chunk in its chain. */
  lemma ExhaustedReached() returns (acts: seq<Action>, s: State)
    ensures Reached(1, 1, acts, s) && s.focus == Nobody && 0 in s.conns && Busy(s.conns[0])
    ensures s.ring == [] && s.conns[0].e.consumed == [] && s.conns[0].c.r.chain == [Slot(0, 0, 1)]
  {
    acts, s := SatedReached();
    acts, s := Then(acts, s, Finish);
    assert Alone(s, Sated(Done), On(0, Out(KReturn)), []);
    acts, s := Then(acts, s, Proceed);
    assert Alone(s, Sated(Done), Nobody, []);
  }

  /** Appends an action to a run. */
  lemma Then(acts: seq<Action>, s: State, a: Action) returns (more: seq<Action>, now: State)
    requires Reached(1, 1, acts, s) && Obliges(s, a)
    ensures more == acts + [a] && now == Step(s, a) && Reached(1, 1, more, now)
  {
    RunOn(Init(1, 1), acts, a);
    more, now := acts + [a], Step(s, a);
  }

  // ----- What a sleeping reader is told --------------------------------------------

  /** What the result of a completion makes `PrepareToRead` yield. */
  function Told(res: int): int { if ReadFatal(res) then -1 else if res > 0 then res else 0 }

  lemma WokenPeer(p: Peer)
    requires PeerInv(p, Idle) && p.e.co == AtRecv && p.e.rx.cqes != []
    ensures var res, t := p.e.rx.cqes[0].res, ReapRead(p);
      && t.mode == In(if ReadFatal(res) then KReadFatal else KReturn)
      && RecvResult(t.p.c) == Told(res)
  {
    ReapCqes(p.e.rx);
    var cqe := p.e.rx.cqes[0];
    if cqe.res > 0 {
      ChainLenSnoc([], Slot(cqe.idx, 0, cqe.res));
      assert [] + [Slot(cqe.idx, 0, cqe.res)] == [Slot(cqe.idx, 0, cqe.res)];
    }
  }

  /** A reader woken by a completion is told of a failure, of the bytes that came, or of none:
      zero exactly when the completion was neither fatal nor brought data. */
  lemma WokenResult(s: State, i: nat)
    requires Inv(s) && s.focus == Nobody && i in s.conns
    requires s.conns[i].e.co == AtRecv && s.conns[i].e.rx.cqes != []
    ensures var res, now := s.conns[i].e.rx.cqes[0].res, Step(s, ReapReadOf(i));
      && now.focus == On(i, In(if ReadFatal(res) then KReadFatal else KReturn))
      && RecvResult(now.conns[i].c) == Told(res)
      && (RecvResult(now.conns[i].c) == 0 <==> res <= 0 && !ReadFatal(res))
  {
    assert Well(s, i);
    WokenPeer(s.conns[i]);
  }

  /** A reader that does not sleep is told of a failure or of at least one byte. */
  lemma ReadyResult(p: Peer, k: Cont)
    requires PeerInv(p, In(k)) && RecvReady(p.c)
    ensures RecvResult(p.c) != 0
  {
  }

  /** Every sleeping reader whose receive is armed can be woken with nothing to read. */
  lemma WokenForNothing(s: State, i: nat)
    requires Inv(s) && s.focus == Nobody && i in s.conns
    requires s.conns[i].e.co == AtRecv && s.conns[i].e.rx.recv == RecvArmed && s.conns[i].e.rx.cqes == []
    ensures var now := Step(Step(s, End(i, -ENOBUFS)), ReapReadOf(i));
      now.focus == On(i, In(KReturn)) && RecvResult(now.conns[i].c) == 0
  {
    var one := Step(s, End(i, -ENOBUFS));
    StepKeeps(s, End(i, -ENOBUFS));
    assert one.conns[i].e.rx.cqes == [Cqe(-ENOBUFS, false, 0)];
    WokenResult(one, i);
  }
}
