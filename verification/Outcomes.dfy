/** What completions, sends and closes lead to in every run, with the error codes and the marks
    written out. */
module Outcomes {
  import opened Bytes
  import opened SendQueues
  import opened Connections
  import opened Chains
  import opened Peers
  import opened ConnectionSystem

  // ----- A receive that ends without data ---------------------------------------------

  /** The three codes that end a multishot and nothing else. */
  predicate Soft(res: int) { res == -ENOBUFS || res == -EAGAIN || res == -ECANCELED }

  lemma SoftPeer(p: Peer)
    requires PeerInv(p, Idle) && p.e.rx.cqes != [] && Soft(p.e.rx.cqes[0].res)
    ensures var t := ReapRead(p);
      && t.p.c.closing == p.c.closing && t.p.c.r.error == p.c.r.error && t.p.c.r.chain == p.c.r.chain
      && t.p.e.tally == p.e.tally
      && (if p.c.r.status == Canceling then t.p.c.r.status == Stopped && t.p.e.rx.recv == RecvNone
          else t.p.c.r.status == Reading && t.p.e.rx.recv == RecvAsked)
      && (if p.e.co == AtRecv then t.mode == In(KReturn) && RecvResult(t.p.c) == 0
          else t.mode == Idle && t.p.e.co == p.e.co)
  {
    ReapCqes(p.e.rx);
  }

  /** End of stream and every other code. */
  lemma HardPeer(p: Peer)
    requires PeerInv(p, Idle) && p.e.rx.cqes != [] && p.e.rx.cqes[0].res <= 0 && !Soft(p.e.rx.cqes[0].res)
    ensures var t := ReapRead(p);
      && t.p.c.r.error && RecvResult(t.p.c) == -1
      && (if p.e.co == AtRecv then t.mode == In(KReadFatal) else t.mode == Idle && t.p.c.closing && t.p.c.r.status == Stopped)
  {
    ReapCqes(p.e.rx);
  }

  /** A receive that ends with ENOBUFS, EAGAIN or ECANCELED leaves the connection as open as it
      was and without an error: cancelled reading stops, other reading goes on, and a sleeping
      reader is woken with nothing to read. */
  lemma SoftEnd(s: State, i: nat)
    requires Inv(s) && s.focus == Nobody && i in s.conns && s.conns[i].e.rx.cqes != [] && Soft(s.conns[i].e.rx.cqes[0].res)
    ensures var p, now := s.conns[i], Step(s, ReapReadOf(i));
      var q := now.conns[i];
      && q.c.closing == p.c.closing && q.c.r.error == p.c.r.error && q.e.tally == p.e.tally
      && (if p.c.r.status == Canceling then q.c.r.status == Stopped && q.e.rx.recv == RecvNone
          else q.c.r.status == Reading && q.e.rx.recv == RecvAsked)
      && (if p.e.co == AtRecv then now.focus == On(i, In(KReturn)) && RecvResult(q.c) == 0
          else now.focus == Nobody && q.e.co == p.e.co)
  {
    assert Well(s, i);
    SoftPeer(s.conns[i]);
  }

  /** One that ends with 0 or any other code closes the connection, at once or when the reader
      that was told of it has returned control. */
  lemma HardEnd(s: State, i: nat)
    requires Inv(s) && s.focus == Nobody && i in s.conns && s.conns[i].e.rx.cqes != []
    requires s.conns[i].e.rx.cqes[0].res <= 0 && !Soft(s.conns[i].e.rx.cqes[0].res)
    ensures var p, now := s.conns[i], Step(s, ReapReadOf(i));
      && RecvResult(now.conns[i].c) == -1
      && (if p.e.co == AtRecv then now.focus == On(i, In(KReadFatal)) else now.focus == Nobody && now.conns[i].c.closing)
  {
    assert Well(s, i);
    HardPeer(s.conns[i]);
  }

  /** After either fatal resumption the connection is closed and its frame gone. */
  lemma FatalCloses(s: State)
    requires Inv(s) && s.focus.On? && s.focus.m.Out? && s.focus.m.k != KReturn
    ensures var now := Step(s, Proceed);
      now.focus == Nobody && now.conns[s.focus.i].c.closing && now.conns[s.focus.i].e.co == Destroyed
  {
    assert Well(s, s.focus.i);
  }

  // ----- A write that fails -----------------------------------------------------------

  /** The three codes after which the code sends again. */
  predicate Retried(res: int) { res == -EAGAIN || res == -ENOBUFS || res == -EINTR }

  /** A failed write: three codes leave the connection open and without an error, every other
      one records the error and closes, at once or after the writer that was told of it. */
  lemma FailedWrite(c: Conn, res: int)
    requires res < 0
    ensures var o := OnWrite(c, res);
      if Retried(res) then o.c.closing == c.closing && o.c.w.error == c.w.error && o.fx.close == false
      else o.c.w.error && !SendResult(o.c) && (if c.w.handle then o.next == Resume(KWriteFatal) else o.next == Finished && o.c.closing)
  {
  }

  // ----- Sending and the output mark --------------------------------------------------

  lemma SendPeer(p: Peer, k: Cont, data: seq<byte>)
    requires !p.c.closing
    ensures var t, n := CoSend(p, k, data), |Pending(p.c.w.q)| + |data|;
      && |Pending(t.p.c.w.q)| == n
      && (if n > p.c.cfg.outHighWater then t.mode == Out(k) && t.p.e.co == AtSend && t.p.c.w.handle else t.mode == In(k) && t.p.e.co == p.e.co)
  {
    FlattenSnoc(p.c.w.q.frags, data);
  }

  /** A send on an open connection suspends the coroutine exactly if more bytes than the output
      mark are then pending; a coroutine that goes on leaves at most that many. */
  lemma SendExact(s: State, data: seq<byte>)
    requires Running(s) && !s.conns[s.focus.i].c.closing
    ensures var i, k, now := s.focus.i, s.focus.m.k, Step(s, Send(data));
      var n := |Pending(s.conns[i].c.w.q)| + |data|;
      && |Pending(now.conns[i].c.w.q)| == n
      && (if n > s.conns[i].c.cfg.outHighWater then now.focus == On(i, Out(k)) && now.conns[i].e.co == AtSend && now.conns[i].c.w.handle
          else now.focus == s.focus && now.conns[i].e.co == s.conns[i].e.co)
  {
    SendPeer(s.conns[s.focus.i], s.focus.m.k, data);
  }

  /** On a closed connection neither awaiter does anything, and both say so. */
  lemma ClosedAwaits(s: State, data: seq<byte>)
    requires Running(s) && s.conns[s.focus.i].c.closing
    ensures !SendResult(s.conns[s.focus.i].c) && RecvResult(s.conns[s.focus.i].c) == -1
    ensures Step(s, Send(data)) == s && Step(s, Recv) == s
  {
    assert s.conns[s.focus.i := s.conns[s.focus.i]] == s.conns;
  }

  lemma WakePeer(p: Peer)
    requires PeerInv(p, Idle) && p.e.co == AtSend && p.e.tx.wr.WriteEnded? && p.e.tx.wr.res >= 0
    ensures var t, n := ReapWrite(p), |Pending(p.c.w.q)| - p.e.tx.wr.res;
      && |Pending(t.p.c.w.q)| == n
      && (if n <= p.c.cfg.outHighWater then t.mode == In(KReturn) && SendResult(t.p.c) else t.mode == Idle && t.p.e.co == AtSend)
  {
    SkipDropsBytes(p.c.w.q.frags, p.e.tx.wr.res);
  }

  /** A write completion wakes a sleeping writer, and tells it of success, exactly if at most as
      many bytes as the output mark are left. */
  lemma WakeExact(s: State, i: nat)
    requires Inv(s) && s.focus == Nobody && i in s.conns && s.conns[i].e.co == AtSend
    requires s.conns[i].e.tx.wr.WriteEnded? && s.conns[i].e.tx.wr.res >= 0
    ensures var p, now := s.conns[i], Step(s, ReapWriteOf(i));
      var n := |Pending(p.c.w.q)| - p.e.tx.wr.res;
      && |Pending(now.conns[i].c.w.q)| == n
      && (if n <= p.c.cfg.outHighWater then now.focus == On(i, In(KReturn)) && SendResult(now.conns[i].c)
          else now.focus == Nobody && now.conns[i].e.co == AtSend)
  {
    assert Well(s, i);
    WakePeer(s.conns[i]);
  }

  // ----- Receiving and the input marks --------------------------------------------------

  /** The completion brings data that passes a mark while reading. */
  predicate Passes(c: Conn, cqe: Cqe) {
    && cqe.res > 0 && c.r.status == Reading
    && (ChainLen(c.r.chain) + cqe.res > c.cfg.highWater || |c.r.chain| + 1 > c.cfg.highWaterChunks)
  }

  lemma CancelPeer(p: Peer)
    requires PeerInv(p, Idle) && p.e.rx.cqes != []
    ensures ReapRead(p).p.e.rx.cancels == p.e.rx.cancels + (if Passes(p.c, p.e.rx.cqes[0]) then 1 else 0)
  {
    var cqe := p.e.rx.cqes[0];
    ReapCqes(p.e.rx);
    if cqe.res > 0 { ChainLenSnoc(p.c.r.chain, Slot(cqe.idx, 0, cqe.res)); }
  }

  /** A cancel goes out exactly when data takes the chain above one of the marks while reading. */
  lemma CancelExact(s: State, i: nat)
    requires Inv(s) && s.focus == Nobody && i in s.conns && s.conns[i].e.rx.cqes != []
    ensures var p, now := s.conns[i], Step(s, ReapReadOf(i));
      now.conns[i].e.rx.cancels == p.e.rx.cancels + (if Passes(p.c, p.e.rx.cqes[0]) then 1 else 0)
  {
    assert Well(s, i);
    CancelPeer(s.conns[i]);
  }

  // ----- Closing ------------------------------------------------------------------------

  /** Where a close leaves the coroutine. */
  function Left(co: Co, closing: bool): Co {
    if co == NotStarted then NotStarted else if closing || co == AtRecv || co == AtSend then Destroyed else co
  }

  lemma ClosePeer(p: Peer)
    requires PeerInv(p, Idle)
    ensures var t := Destroy(p);
      && t.mode == Idle && t.p.c.closing && (t.p.c.task <==> t.p.e.co !in {NotStarted, Destroyed})
      && t.p.c.r == p.c.r.(handle := t.p.c.r.handle) && t.p.c.w == p.c.w.(handle := t.p.c.w.handle)
      && t.p.e.co == Left(p.e.co, p.c.closing) && t.p.e.tally.destroys == Count(t.p.e.co == Destroyed)
  {
  }

  lemma ClosedStep(s: State, i: nat)
    requires s.focus == Nobody && i in s.conns
    ensures Step(s, Closed(i)).conns[i] == Destroy(s.conns[i]).p
  {
  }

  /** What a close does to the coroutine: the first destroys one that sleeps and leaves one that
      is done; the next destroys any frame that is left. */
  lemma CloseExact(s: State, i: nat)
    requires Inv(s) && s.focus == Nobody && i in s.conns
    ensures var p, q := s.conns[i], Step(s, Closed(i)).conns[i];
      && q.c.closing && (q.c.task <==> q.e.co !in {NotStarted, Destroyed})
      && q.c.r.holder == p.c.r.holder && q.c.w.holder == p.c.w.holder && q.c.r.chain == p.c.r.chain
      && q.e.co == Left(p.e.co, p.c.closing) && q.e.tally.destroys == (if q.e.co == Destroyed then 1 else 0)
  {
    assert Well(s, i);
    ClosePeer(s.conns[i]);
    ClosedStep(s, i);
  }

  /** A connection without outstanding requests can be freed once it has been closed and then
      destroyed, and its chunks are back in the ring. */
  lemma ClosedCanBeFreed(s: State, i: nat)
    requires Inv(s) && s.focus == Nobody && i in s.conns && !s.conns[i].c.r.holder && !s.conns[i].c.w.holder
    ensures var twice := Step(Step(s, Closed(i)), Closed(i));
      && Possible(twice, Free(i))
      && i !in Step(twice, Free(i)).conns && Step(twice, Free(i)).ring == s.ring + Idx(s.conns[i].c.r.chain)
  {
    CloseExact(s, i);
    StepKeeps(s, Closed(i));
    CloseExact(Step(s, Closed(i)), i);
  }
}
