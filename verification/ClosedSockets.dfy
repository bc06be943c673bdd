/** Requests made on a descriptor that `handleClose` has already closed: a completion that
    arrives later may still submit the next receive or write.  Exactly when it does. */
module ClosedSockets {
  import opened Bytes
  import opened SendQueues
  import opened Connections
  import opened Peers
  import opened ConnectionSystem
  import opened ConnectionTheorems
  import opened ReadFailures

  /** On a closed connection a write completion submits another write exactly if it is not
      fatal and leaves bytes in the queue. */
  lemma StaleWriteExact(s: State, i: nat)
    requires Inv(s) && s.focus == Nobody && i in s.conns && s.conns[i].c.closing && s.conns[i].e.tx.wr.WriteEnded?
    ensures var p, now := s.conns[i], Step(s, ReapWriteOf(i));
      && now.conns[i].c.closing && now.focus == Nobody
      && (now.conns[i].e.tx.wr == WriteAsked <==> 0 <= p.e.tx.wr.res < |Pending(p.c.w.q)|)
      && (now.conns[i].e.tx.wr != WriteAsked ==> now.conns[i].e.tx.wr == WriteNone)
  {
    assert Well(s, i);
    StaleWritePeer(s.conns[i]);
  }

  lemma StaleWritePeer(p: Peer)
    requires PeerInv(p, Idle) && p.c.closing && p.e.tx.wr.WriteEnded?
    ensures var t := ReapWrite(p);
      && t.p.c.closing && t.mode == Idle
      && t.p.e.tx.wr == if 0 <= p.e.tx.wr.res < |Pending(p.c.w.q)| then WriteAsked else WriteNone
  {
    if p.e.tx.wr.res >= 0 { SkipDropsBytes(p.c.w.q.frags, p.e.tx.wr.res); }
  }

  /** Whether the completion is the last of a multishot that goes on reading: not fatal, no
      cancel sent, and no mark passed by its data. */
  predicate ReadsOn(c: Conn, cqe: Cqe) {
    && !cqe.more && !ReadFatal(cqe.res) && c.r.status == Reading
    && !(cqe.res > 0 && OverIn(c.cfg, c.r.chain + [Slot(cqe.idx, 0, cqe.res)]))
  }

  /** On a closed connection a read completion submits another receive exactly then. */
  lemma StaleReadExact(s: State, i: nat)
    requires Inv(s) && s.focus == Nobody && i in s.conns && s.conns[i].c.closing && s.conns[i].e.rx.cqes != []
    ensures var p, now := s.conns[i], Step(s, ReapReadOf(i));
      && now.conns[i].c.closing && now.focus == Nobody
      && (now.conns[i].e.rx.recv == RecvAsked <==> ReadsOn(p.c, p.e.rx.cqes[0]))
  {
    assert Well(s, i);
    StaleReadPeer(s.conns[i]);
  }

  lemma StaleReadPeer(p: Peer)
    requires PeerInv(p, Idle) && p.c.closing && p.e.rx.cqes != []
    ensures var t := ReapRead(p);
      && t.p.c.closing && t.mode == Idle
      && (t.p.e.rx.recv == RecvAsked <==> ReadsOn(p.c, p.e.rx.cqes[0]))
  {
    ReapCqes(p.e.rx);
    assert TakeRead(p.c, p.e.rx.cqes[0]).0.closing;
  }

  // ----- A run that does it ---------------------------------------------------------

  /** A coroutine that has sent two bytes and is done; the write is at `wr`. */
  function Sender(closing: bool, wr: WriteLoc): Peer {
    Peer(NewConn(ROOMY).(task := true, closing := closing,
                         w := WriteContext(SendQ([[1, 2]], 1), [[1, 2]], true, true, false, false)),
         Env(Done, Rx(RecvNone, [], 0), Tx(wr, [1, 2], if wr.WriteEnded? then [1] else []),
             Tally(Count(closing), Count(closing), 0), [], []))
  }

  lemma SenderSends()
    ensures var t := CoSend(Establish(NewPeer(ROOMY)).p, KReturn, [1, 2]);
      t.mode == In(KReturn) && t.p == Sending()
  {
    assert [] + [[1 as byte, 2]] == [[1, 2]] && [] + [1 as byte, 2] == [1, 2];
    FlattenOne([1, 2]);
  }

  lemma ShortWrite()
    ensures KernelWrite(Sender(true, WriteArmed), 1) == Sender(true, WriteEnded(1))
  {
    FlattenOne([1, 2]);
    assert [] + [1 as byte, 2][..1] == [1];
  }

  /** The same while the coroutine still runs. */
  function Sending(): Peer {
    var p := Sender(false, WriteAsked);
    p.(e := p.e.(co := Active))
  }

  lemma SendingReached() returns (acts: seq<Action>, s: State)
    ensures Reached(1, 1, acts, s) && Alone(s, Sending(), On(0, In(KReturn)), [0])
  {
    acts, s := OpensReached();
    SenderSends();
    acts, s := Then(acts, s, Send([1, 2]));
  }

  lemma SenderReached() returns (acts: seq<Action>, s: State)
    ensures Reached(1, 1, acts, s) && Alone(s, Sender(false, WriteAsked), Nobody, [0])
  {
    acts, s := SendingReached();
    acts, s := Then(acts, s, Finish);
    assert Alone(s, Sender(false, WriteAsked), On(0, Out(KReturn)), [0]);
    acts, s := Then(acts, s, Proceed);
  }

  /** The connection is closed while its write is in flight; the write turns out short, and
      the rest is submitted on the closed descriptor. */
  lemma StaleWriteReached() returns (acts: seq<Action>, s: State)
    ensures Reached(1, 1, acts, s) && 0 in s.conns && s.conns[0].c.closing && s.conns[0].e.tx.wr == WriteAsked
  {
    acts, s := SenderReached();
    acts, s := Then(acts, s, IssueWrite(0));
    assert Alone(s, Sender(false, WriteArmed), Nobody, [0]);
    acts, s := Then(acts, s, Closed(0));
    assert Alone(s, Sender(true, WriteArmed), Nobody, [0]);
    FlattenOne([1, 2]);
    ShortWrite();
    acts, s := Then(acts, s, Wrote(0, 1));
    assert Alone(s, Sender(true, WriteEnded(1)), Nobody, [0]);
    ReachedInv(1, 1, acts, s);
    StaleWriteExact(s, 0);
    acts, s := Then(acts, s, ReapWriteOf(0));
  }

  /** The connection is closed while its receive is armed; the ring turns out exhausted, and
      the next receive is submitted on the closed descriptor. */
  lemma StaleReadReached() returns (acts: seq<Action>, s: State)
    ensures Reached(1, 1, acts, s) && 0 in s.conns && s.conns[0].c.closing && s.conns[0].e.rx.recv == RecvAsked
  {
    acts, s := SatedClosed();
    acts, s := Then(acts, s, End(0, -ENOBUFS));
    var cqe := Cqe(-ENOBUFS, false, 0);
    assert 0 in s.conns && s.conns[0].e.rx.cqes == [cqe] && s.focus == Nobody;
    ReachedInv(1, 1, acts, s);
    StaleReadExact(s, 0);
    acts, s := Then(acts, s, ReapReadOf(0));
  }

  /** A connection closed by `Destroyed` while its coroutine is done and its receive armed. */
  lemma SatedClosed() returns (acts: seq<Action>, s: State)
    ensures Reached(1, 1, acts, s) && s.focus == Nobody && 0 in s.conns && s.conns[0].c.closing
    ensures s.conns[0].c.r.status == Reading && s.conns[0].e.rx == Rx(RecvArmed, [], 0)
  {
    acts, s := ExhaustedReached();
    ReachedInv(1, 1, acts, s);
    acts, s := Then(acts, s, Closed(0));
  }

  /** A request made before the close and still on its way reaches the kernel after it: nothing
      takes back a receive or a write that waits to be submitted. */
  lemma IssuedAfterClose(s: State, i: nat)
    requires Inv(s) && s.focus == Nobody && i in s.conns
    ensures var p, c := s.conns[i], Step(s, Closed(i));
      && c.conns[i].c.closing
      && (p.e.rx.recv == RecvAsked ==> Step(c, IssueRead(i)).conns[i].e.rx.recv == RecvArmed && Step(c, IssueRead(i)).conns[i].c.closing)
      && (p.e.tx.wr == WriteAsked ==> Step(c, IssueWrite(i)).conns[i].e.tx.wr == WriteArmed && Step(c, IssueWrite(i)).conns[i].c.closing)
  {
  }
}
