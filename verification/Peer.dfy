/** One connection together with its surroundings: the coroutine that uses it, what the
    kernel holds for it, and the history of the bytes that passed.  The functions here
    are the steps of a run seen from one connection; `PeerInv` is what every step keeps. */
module Peers {
  import opened Bytes
  import opened SendQueues
  import opened Connections

  /** Where the business coroutine really is, whatever the handles say. */
  datatype Co = NotStarted | Active | AtRecv | AtSend | Done | Destroyed

  /** The multishot receive: not submitted; on its way to the kernel (waiting queue or
      submission queue); in the kernel; finished with its last completion unreaped. */
  datatype RecvLoc = RecvNone | RecvAsked | RecvArmed | RecvEnded

  datatype WriteLoc = WriteNone | WriteAsked | WriteArmed | WriteEnded(res: int)

  /** The receive side: the multishot, its unreaped completions and the cancels sent for it. */
  datatype Rx = Rx(recv: RecvLoc, cqes: seq<Cqe>, cancels: nat)

  /** The send side: the write, all bytes appended and all bytes the kernel accepted. */
  datatype Tx = Tx(wr: WriteLoc, appended: seq<byte>, accepted: seq<byte>)

  /** Events that must happen at most once. */
  datatype Tally = Tally(closes: nat, callbacks: nat, destroys: nat)

  datatype Env = Env(co: Co, rx: Rx, tx: Tx, tally: Tally, wire: seq<byte>, consumed: seq<byte>)

  datatype Peer = Peer(c: Conn, e: Env)

  /** Idle: the loop is not inside this connection.  In(k): its coroutine runs and `k`
      is to follow.  Out(k): the coroutine has returned and `k` is next. */
  datatype Mode = Idle | In(k: Cont) | Out(k: Cont)

  datatype Turn = Turn(p: Peer, mode: Mode, fault: bool)

  function NewPeer(cfg: Config): Peer {
    Peer(NewConn(cfg), Env(NotStarted, Rx(RecvNone, [], 0), Tx(WriteNone, [], []), Tally(0, 0, 0), [], []))
  }

  // ----- Effects -------------------------------------------------------------

  /** A receive or write submitted while one is outstanding, a second cancel of the same
      multishot, a second close, and destroying a coroutine that is running or is not
      there are all faults. */
  predicate FxFault(e: Env, fx: Fx) {
    || (fx.read && e.rx.recv != RecvNone)
    || (fx.cancel && e.rx.cancels != 0)
    || (fx.write && e.tx.wr != WriteNone)
    || (fx.close && e.tally.closes != 0)
    || (fx.callback && e.tally.callbacks != 0)
    || (fx.destroy && e.co in {NotStarted, Active, Destroyed})
  }

  function Count(b: bool): nat { if b then 1 else 0 }

  function ApplyFx(e: Env, fx: Fx): Env {
    Env(if fx.destroy then Destroyed else e.co,
        if fx.read then Rx(RecvAsked, e.rx.cqes, 0)
        else if fx.cancel then e.rx.(cancels := e.rx.cancels + 1) else e.rx,
        if fx.write then e.tx.(wr := WriteAsked) else e.tx,
        Tally(e.tally.closes + Count(fx.close), e.tally.callbacks + Count(fx.callback),
              e.tally.destroys + Count(fx.destroy)),
        e.wire, e.consumed)
  }

  /** Carries out an outcome.  Resuming a coroutine that is not suspended is a fault. */
  function Settle(o: Outcome, e: Env, mode: Mode): Turn {
    var d := ApplyFx(e, o.fx);
    var bad := !o.ok || FxFault(e, o.fx);
    match o.next
    case Finished => Turn(Peer(o.c, d), mode, bad)
    case Resume(k) => Turn(Peer(o.c, d.(co := Active)), In(k), bad || d.co !in {AtRecv, AtSend})
  }

  // ----- Steps ---------------------------------------------------------------

  function Establish(p: Peer): Turn {
    Turn(Peer(p.c.(task := true), p.e.(co := Active)), In(KReturn), p.e.co != NotStarted)
  }

  function Reap(rx: Rx): Rx
    requires rx.cqes != []
  {
    Rx(if rx.cqes[0].more then rx.recv else RecvNone, rx.cqes[1..], rx.cancels)
  }

  /** The loop handles the next read completion of this connection. */
  function ReapRead(p: Peer): Turn
    requires p.e.rx.cqes != []
  {
    Settle(OnRead(p.c, p.e.rx.cqes[0]), p.e.(rx := Reap(p.e.rx)), Idle)
  }

  function ReapWrite(p: Peer): Turn
    requires p.e.tx.wr.WriteEnded?
  {
    Settle(OnWrite(p.c, p.e.tx.wr.res), p.e.(tx := p.e.tx.(wr := WriteNone)), Idle)
  }

  function CoRecv(p: Peer, k: Cont): Turn {
    if RecvReady(p.c) then Turn(p, In(k), false)
    else Settle(RecvSuspend(p.c), p.e.(co := AtRecv), Out(k))
  }

  function Appending(e: Env, data: seq<byte>): Env {
    e.(tx := e.tx.(appended := e.tx.appended + data))
  }

  /** After `sendInLoop`: go on, or sleep above the high-water mark. */
  function AfterSend(o: Outcome, e: Env, k: Cont): Turn {
    if OverOut(o.c.cfg, o.c.w.q) then Settle(o.(c := SendSuspend(o.c)), e.(co := AtSend), Out(k))
    else Settle(o, e, In(k))
  }

  function CoSend(p: Peer, k: Cont, data: seq<byte>): Turn {
    if p.c.closing then Turn(p, In(k), false)
    else AfterSend(SendInLoop(p.c, data), Appending(p.e, data), k)
  }

  function CoFinish(p: Peer, k: Cont): Turn {
    Turn(p.(e := p.e.(co := Done)), Out(k), false)
  }

  /** What follows `resume()` in the completion handlers. */
  function Continue(p: Peer, k: Cont): Turn {
    match k
    case KReturn => Turn(p, Idle, false)
    case KReadFatal => Settle(FinishReadFatal(p.c), p.e, Idle)
    case KWriteFatal => Settle(FinishWriteFatal(p.c), p.e, Idle)
  }

  /** `Destroyed()`, queued by an awaiter or by the server's destructor. */
  function Destroy(p: Peer): Turn {
    var (c, fx) := HandleClose(p.c);
    Settle(Outcome(c, fx, Finished, true), p.e, Idle)
  }

  /** The request leaves the submission queue for the kernel. */
  function IssueRead(p: Peer): Peer {
    p.(e := p.e.(rx := p.e.rx.(recv := RecvArmed)))
  }

  function IssueWrite(p: Peer): Peer {
    p.(e := p.e.(tx := p.e.tx.(wr := WriteArmed)))
  }

  /** A completion with data. */
  function KernelData(p: Peer, idx: nat, payload: seq<byte>, more: bool): Peer {
    p.(e := p.e.(rx := Rx(if more then RecvArmed else RecvEnded,
                          p.e.rx.cqes + [Cqe(|payload|, more, idx)], p.e.rx.cancels),
                 wire := p.e.wire + payload))
  }

  function KernelEnd(p: Peer, res: int): Peer {
    p.(e := p.e.(rx := Rx(RecvEnded, p.e.rx.cqes + [Cqe(res, false, 0)], p.e.rx.cancels)))
  }

  function KernelWrite(p: Peer, res: int): Peer {
    var sent := Flatten(p.c.w.batch);
    p.(e := p.e.(tx := Tx(WriteEnded(res), p.e.tx.appended,
      if 0 <= res <= |sent| then p.e.tx.accepted + sent[..res] else p.e.tx.accepted)))
  }

  // ----- Invariant -----------------------------------------------------------

  ghost predicate InReadFatal(m: Mode) { !m.Idle? && m.k == KReadFatal }
  ghost predicate InWriteFatal(m: Mode) { !m.Idle? && m.k == KWriteFatal }

  /** Completions of one multishot: all but a last one promise more, a result without
      data is the last, and nothing is queued unless the receive is in the kernel. */
  ghost predicate CqesOk(rx: Rx) {
    && (forall k :: 0 <= k < |rx.cqes| ==>
          && (rx.cqes[k].more <==> !(k == |rx.cqes| - 1 && rx.recv == RecvEnded))
          && (rx.cqes[k].res <= 0 ==> !rx.cqes[k].more))
    && (rx.cqes != [] ==> rx.recv in {RecvArmed, RecvEnded})
    && (rx.recv == RecvEnded ==> rx.cqes != [])
  }

  ghost predicate ReadInv(cfg: Config, r: ReadContext, rx: Rx, closing: bool, m: Mode) {
    && CqesOk(rx)
    && Unread(r.chain)
    && (r.status == Reading ==> !OverIn(cfg, r.chain) && rx.cancels == 0)
    && (r.status == Canceling ==> rx.cancels == 1)
    && (r.holder <==> r.status != Stopped)
    && (r.error ==> closing || InReadFatal(m))
    && if InReadFatal(m)
       then r.status != Stopped && rx.recv == RecvNone && r.handle && !closing
       else (r.status == Stopped <==> rx.recv == RecvNone)
  }

  /** Bytes the kernel has taken from the batch whose completion is not yet reaped. */
  ghost function Unreaped(wr: WriteLoc): nat {
    if wr.WriteEnded? && wr.res >= 0 then wr.res else 0
  }

  /** Accepted bytes, then pending bytes, are all bytes appended. */
  ghost predicate StreamOk(q: SendQ, tx: Tx) {
    && Unreaped(tx.wr) <= |Flatten(q.frags)|
    && tx.accepted + Flatten(q.frags)[Unreaped(tx.wr)..] == tx.appended
  }

  ghost predicate WriteInv(cfg: Config, w: WriteContext, tx: Tx, closing: bool, m: Mode) {
    && cfg.maxSlices >= 1
    && w.q.cur <= |w.q.frags|
    && (w.sending <==> tx.wr != WriteNone)
    && (w.holder <==> w.sending || InWriteFatal(m))
    && (w.sending ==> w.batch == w.q.frags[..w.q.cur])
    && (!w.sending && !w.error ==> w.q.cur == 0 && Flatten(w.q.frags) == [])
    && (w.error ==> closing || InWriteFatal(m))
    && (tx.wr.WriteEnded? ==> tx.wr.res <= |Flatten(w.batch)| && (tx.wr.res >= 0 || WriteFatal(tx.wr.res)))
    && (InWriteFatal(m) ==> !w.sending && w.error && w.handle && !closing)
    && StreamOk(w.q, tx)
  }

  ghost predicate HandlesOk(c: Conn, co: Co, m: Mode) {
    match m
    case Idle => co != Active && (c.r.handle <==> co == AtRecv) && (c.w.handle <==> co == AtSend)
    case In(k) => co == Active && (c.r.handle <==> k == KReadFatal) && (c.w.handle <==> k == KWriteFatal)
    case Out(k) =>
      && co in {AtRecv, AtSend, Done}
      && (c.r.handle <==> k == KReadFatal || co == AtRecv)
      && (c.w.handle <==> k == KWriteFatal || co == AtSend)
  }

  ghost predicate CoInv(c: Conn, co: Co, tally: Tally, m: Mode) {
    && HandlesOk(c, co, m)
    && (c.task <==> co !in {NotStarted, Destroyed})
    && (c.closing ==> co !in {AtRecv, AtSend})
    && tally == Tally(Count(c.closing), Count(c.closing), Count(co == Destroyed))
  }

  /** A sleeping coroutine has a reason to sleep and something that will wake it. */
  ghost predicate ReaderOk(r: ReadContext, co: Co) {
    co == AtRecv ==> r.chain == [] && r.status != Stopped
  }

  ghost predicate WriterOk(cfg: Config, w: WriteContext, co: Co) {
    co == AtSend ==> OverOut(cfg, w.q) && w.sending
  }

  ghost predicate PeerInv(p: Peer, m: Mode) {
    && ReadInv(p.c.cfg, p.c.r, p.e.rx, p.c.closing, m)
    && WriteInv(p.c.cfg, p.c.w, p.e.tx, p.c.closing, m)
    && CoInv(p.c, p.e.co, p.e.tally, m)
    && ReaderOk(p.c.r, p.e.co)
    && WriterOk(p.c.cfg, p.c.w, p.e.co)
  }

  /** What a step must give: the invariant in its new mode, no fault, and the bytes read
      from the network and the chunks held left alone. */
  ghost predicate Kept(p: Peer, t: Turn) {
    && PeerInv(t.p, t.mode) && !t.fault
    && t.p.e.wire == p.e.wire && t.p.e.consumed == p.e.consumed
    && Slots(t.p) == Slots(p)
  }

  // ----- Chunks held ---------------------------------------------------------

  /** The chunks of the completions that carry data. */
  function CqeSlots(cqes: seq<Cqe>): seq<Slot> {
    if cqes == [] then []
    else (if cqes[0].res > 0 then [Slot(cqes[0].idx, 0, cqes[0].res)] else []) + CqeSlots(cqes[1..])
  }

  /** Every chunk of this connection, oldest data first: its chain, then the completions
      not yet reaped. */
  function Slots(p: Peer): seq<Slot> { p.c.r.chain + CqeSlots(p.e.rx.cqes) }

  lemma {:induction false} CqeSlotsSnoc(cqes: seq<Cqe>, q: Cqe)
    ensures CqeSlots(cqes + [q]) == CqeSlots(cqes) + (if q.res > 0 then [Slot(q.idx, 0, q.res)] else [])
  {
    if cqes == [] {
      assert [q][1..] == [];
    } else {
      assert (cqes + [q])[1..] == cqes[1..] + [q];
      CqeSlotsSnoc(cqes[1..], q);
    }
  }

  // ----- Reading -------------------------------------------------------------

  lemma {:induction false} ChainEmpty(chain: seq<Slot>)
    requires Unread(chain)
    ensures ChainLen(chain) == 0 <==> chain == []
  {
  }

  lemma TakeReadSlots(c: Conn, cqe: Cqe, rest: seq<Cqe>)
    ensures TakeRead(c, cqe).0.r.chain + CqeSlots(rest) == c.r.chain + CqeSlots([cqe] + rest)
  {
    assert ([cqe] + rest)[1..] == rest;
    if cqe.res > 0 {
      assert c.r.chain + ([Slot(cqe.idx, 0, cqe.res)] + CqeSlots(rest))
          == (c.r.chain + [Slot(cqe.idx, 0, cqe.res)]) + CqeSlots(rest);
    }
  }

  /** What a turn of a completion handler must give, chain and completions as they were
      left by it. */
  ghost predicate Lands(t: Turn, chain: seq<Slot>, e: Env) {
    && PeerInv(t.p, t.mode) && !t.fault
    && t.p.c.r.chain == chain && t.p.e.rx.cqes == e.rx.cqes
    && t.p.e.wire == e.wire && t.p.e.consumed == e.consumed
  }

  /** The state between the two halves of the read completion. */
  ghost predicate Midway(d: Conn, fx: Fx, e: Env) {
    && (fx == NONE || fx == NONE.(cancel := true))
    && CqesOk(e.rx) && Unread(d.r.chain)
    && d.r.status != Stopped && d.r.holder
    && (d.r.status == Reading ==> !OverIn(d.cfg, d.r.chain) && fx == NONE && e.rx.cancels == 0)
    && (d.r.status == Canceling ==> e.rx.cancels + Count(fx.cancel) == 1)
    && WriteInv(d.cfg, d.w, e.tx, d.closing, Idle)
    && CoInv(d, e.co, e.tally, Idle)
    && WriterOk(d.cfg, d.w, e.co)
  }

  lemma ReapCqes(rx: Rx)
    requires CqesOk(rx) && rx.cqes != []
    ensures CqesOk(Reap(rx))
    ensures if rx.cqes[0].more then Reap(rx).recv == rx.recv != RecvNone else Reap(rx) == Rx(RecvNone, [], rx.cancels)
  {
    assert forall k :: 0 <= k < |Reap(rx).cqes| ==> Reap(rx).cqes[k] == rx.cqes[k + 1];
  }

  /** How the completion left the error mark and, if it is fatal, everything else. */
  ghost predicate Ripe(d: Conn, fx: Fx, fatal: bool) {
    if fatal then fx == NONE && (d.r.handle ==> d.r.chain == []) else d.r.error ==> d.closing
  }

  lemma ReachMidway(p: Peer)
    requires PeerInv(p, Idle) && p.e.rx.cqes != []
    ensures var (d, fx) := TakeRead(p.c, p.e.rx.cqes[0]);
      Midway(d, fx, p.e.(rx := Reap(p.e.rx))) && Ripe(d, fx, ReadFatal(p.e.rx.cqes[0].res))
  {
    ReapCqes(p.e.rx);
  }

  lemma MiddleLands(d: Conn, fx: Fx, e: Env)
    requires Midway(d, fx, e) && e.rx.recv != RecvNone
    requires d.r.error ==> d.closing
    ensures Lands(Settle(WakeReader(d, fx, true), e, Idle), d.r.chain, e)
  {
  }

  lemma StopLands(d: Conn, fx: Fx, e: Env)
    requires Midway(d, fx, e) && e.rx.recv == RecvNone && d.r.status == Canceling
    requires d.r.error ==> d.closing
    ensures Lands(Settle(WakeReader(d.(r := d.r.(status := Stopped, holder := false)), fx, true), e, Idle), d.r.chain, e)
  {
  }

  lemma AgainLands(d: Conn, fx: Fx, e: Env)
    requires Midway(d, fx, e) && e.rx.recv == RecvNone && d.r.status == Reading
    requires d.r.error ==> d.closing
    ensures Lands(Settle(WakeReader(SubmitRead(d), fx.(read := true), true), e, Idle), d.r.chain, e)
  {
  }

  lemma FatalWakes(d: Conn, fx: Fx, e: Env)
    requires Midway(d, fx, e) && e.rx.recv == RecvNone && fx == NONE && d.r.handle && d.r.chain == []
    ensures Lands(Settle(Outcome(d, fx, Resume(KReadFatal), true), e, Idle), d.r.chain, e)
  {
  }

  lemma FatalCloses(d: Conn, fx: Fx, e: Env)
    requires Midway(d, fx, e) && e.rx.recv == RecvNone && fx == NONE && !d.r.handle
    ensures Lands(Settle(FinishReadFatal(d), e, Idle), d.r.chain, e)
  {
  }

  /** One of the ends of the handler. */
  lemma EndLands(d: Conn, fx: Fx, e: Env, fatal: bool)
    requires Midway(d, fx, e) && e.rx.recv == RecvNone
    requires Ripe(d, fx, fatal)
    ensures Lands(Settle(EndedRead(d, fx, fatal, true), e, Idle), d.r.chain, e)
  {
    if fatal {
      if d.r.handle { FatalWakes(d, fx, e); } else { FatalCloses(d, fx, e); }
    } else if d.r.status == Canceling {
      StopLands(d, fx, e);
    } else {
      AgainLands(d, fx, e);
    }
  }

  lemma LandsKept(p: Peer, t: Turn, chain: seq<Slot>)
    requires p.e.rx.cqes != [] && Lands(t, chain, p.e.(rx := Reap(p.e.rx)))
    requires chain + CqeSlots(p.e.rx.cqes[1..]) == Slots(p)
    ensures Kept(p, t)
  {
  }

  lemma ReapReadLands(p: Peer)
    requires PeerInv(p, Idle) && p.e.rx.cqes != []
    ensures Lands(ReapRead(p), TakeRead(p.c, p.e.rx.cqes[0]).0.r.chain, p.e.(rx := Reap(p.e.rx)))
  {
    var cqe, e := p.e.rx.cqes[0], p.e.(rx := Reap(p.e.rx));
    var (d, fx) := TakeRead(p.c, cqe);
    ReachMidway(p);
    ReapCqes(p.e.rx);
    if cqe.more { MiddleLands(d, fx, e); } else { EndLands(d, fx, e, ReadFatal(cqe.res)); }
  }

  lemma ReapReadKeeps(p: Peer)
    requires PeerInv(p, Idle) && p.e.rx.cqes != []
    ensures Kept(p, ReapRead(p))
  {
    var cqes := p.e.rx.cqes;
    ReapReadLands(p);
    TakeReadSlots(p.c, cqes[0], cqes[1..]);
    assert cqes == [cqes[0]] + cqes[1..];
    LandsKept(p, ReapRead(p), TakeRead(p.c, cqes[0]).0.r.chain);
  }

  /** A receive that finds nothing: a new multishot, or the one that is out. */
  lemma RecvAsks(p: Peer, k: Cont)
    requires PeerInv(p, In(k)) && !p.c.closing && p.c.r.chain == [] && p.c.r.status == Stopped
    ensures Kept(p, Settle(RecvSuspend(p.c), p.e.(co := AtRecv), Out(k)))
  {
  }

  lemma RecvWaits(p: Peer, k: Cont)
    requires PeerInv(p, In(k)) && !p.c.closing && p.c.r.chain == [] && p.c.r.status != Stopped
    ensures Kept(p, Settle(RecvSuspend(p.c), p.e.(co := AtRecv), Out(k)))
  {
  }

  lemma CoRecvKeeps(p: Peer, k: Cont)
    requires PeerInv(p, In(k))
    ensures Kept(p, CoRecv(p, k))
  {
    ChainEmpty(p.c.r.chain);
    if !RecvReady(p.c) {
      if p.c.r.status == Stopped { RecvAsks(p, k); } else { RecvWaits(p, k); }
    }
  }

  lemma ContinueKeeps(p: Peer, k: Cont)
    requires PeerInv(p, Out(k))
    ensures Kept(p, Continue(p, k))
  {
  }

  lemma NewPeerInv(cfg: Config)
    requires cfg.maxSlices >= 1
    ensures PeerInv(NewPeer(cfg), Idle) && Slots(NewPeer(cfg)) == []
  {
    var p := NewPeer(cfg);
    assert ReadInv(cfg, p.c.r, p.e.rx, false, Idle);
    assert WriteInv(cfg, p.c.w, p.e.tx, false, Idle);
    assert CoInv(p.c, p.e.co, p.e.tally, Idle);
  }

  lemma IssueReadKeeps(p: Peer, m: Mode)
    requires PeerInv(p, m) && p.e.rx.recv == RecvAsked
    ensures Kept(p, Turn(IssueRead(p), m, false))
  {
  }

  lemma IssueWriteKeeps(p: Peer, m: Mode)
    requires PeerInv(p, m) && p.e.tx.wr == WriteAsked
    ensures Kept(p, Turn(IssueWrite(p), m, false))
  {
  }

  lemma EstablishKeeps(p: Peer)
    requires PeerInv(p, Idle) && p.e.co == NotStarted
    ensures Kept(p, Establish(p))
  {
  }

  lemma CoFinishKeeps(p: Peer, k: Cont)
    requires PeerInv(p, In(k))
    ensures Kept(p, CoFinish(p, k))
  {
  }

  lemma DestroyKeeps(p: Peer)
    requires PeerInv(p, Idle)
    ensures Kept(p, Destroy(p))
  {
  }

  lemma KernelDataKeeps(p: Peer, m: Mode, idx: nat, payload: seq<byte>, more: bool)
    requires PeerInv(p, m) && p.e.rx.recv == RecvArmed && payload != []
    ensures PeerInv(KernelData(p, idx, payload, more), m)
  {
  }

  lemma KernelDataSlots(p: Peer, idx: nat, payload: seq<byte>, more: bool)
    requires payload != []
    ensures Slots(KernelData(p, idx, payload, more)) == Slots(p) + [Slot(idx, 0, |payload|)]
  {
    CqeSlotsSnoc(p.e.rx.cqes, Cqe(|payload|, more, idx));
  }

  lemma KernelEndKeeps(p: Peer, m: Mode, res: int)
    requires PeerInv(p, m) && p.e.rx.recv == RecvArmed && res <= 0
    ensures Kept(p, Turn(KernelEnd(p, res), m, false))
  {
    CqeSlotsSnoc(p.e.rx.cqes, Cqe(res, false, 0));
  }

  // ----- Writing -------------------------------------------------------------

  /** The queue as `retrieve` left it: nothing in flight, the cursor at the head. */
  ghost predicate Drained(c: Conn, e: Env) {
    && c.cfg.maxSlices >= 1 && c.w.q.cur == 0 && c.w.holder
    && (c.w.error ==> c.closing)
    && e.tx.wr == WriteNone && StreamOk(c.w.q, e.tx)
    && ReadInv(c.cfg, c.r, e.rx, c.closing, Idle)
    && CoInv(c, e.co, e.tally, Idle)
    && ReaderOk(c.r, e.co)
  }

  lemma MoreLands(c: Conn, e: Env)
    requires Drained(c, e) && Flatten(c.w.q.frags) != []
    ensures Lands(Settle(WakeWriter(Flush(c), NONE.(write := true), FlushOk(c)), e, Idle), c.r.chain, e)
  {
  }

  lemma DryLands(c: Conn, e: Env)
    requires Drained(c, e) && Flatten(c.w.q.frags) == []
    ensures Lands(Settle(WakeWriter(c.(w := c.w.(sending := false, holder := false)), NONE, true), e, Idle), c.r.chain, e)
  {
  }

  lemma ReapWriteKeeps(p: Peer)
    requires PeerInv(p, Idle) && p.e.tx.wr.WriteEnded?
    ensures Kept(p, ReapWrite(p))
  {
    var res := p.e.tx.wr.res;
    if res < 0 {
      WriteFatalKeeps(p);
    } else {
      var c, e := p.c.(w := p.c.w.(q := SendQ(Skip(p.c.w.q.frags, res), 0))), p.e.(tx := p.e.tx.(wr := WriteNone));
      SkipDropsBytes(p.c.w.q.frags, res);
      if Flatten(c.w.q.frags) != [] { MoreLands(c, e); } else { DryLands(c, e); }
    }
  }

  lemma WriteFatalKeeps(p: Peer)
    requires PeerInv(p, Idle) && p.e.tx.wr.WriteEnded? && p.e.tx.wr.res < 0
    ensures Kept(p, ReapWrite(p))
  {
  }

  /** What `sendInLoop` leaves: the bytes are queued and a write is in flight. */
  ghost predicate Sent(p: Peer, k: Cont, o: Outcome, e: Env) {
    && o.ok && !FxFault(e, o.fx) && o.fx == NONE.(write := !p.c.w.sending) && o.next == Finished
    && o.c == p.c.(w := o.c.w) && o.c.w.handle == p.c.w.handle && o.c.w.sending
    && WriteInv(o.c.cfg, o.c.w, ApplyFx(e, o.fx).tx, false, In(k))
    && e == p.e.(tx := e.tx)
  }

  lemma BusySend(p: Peer, k: Cont, data: seq<byte>)
    requires PeerInv(p, In(k)) && k != KWriteFatal && !p.c.closing && p.c.w.sending
    ensures Sent(p, k, SendInLoop(p.c, data), Appending(p.e, data))
  {
    FlattenSnoc(p.c.w.q.frags, data);
  }

  lemma IdleSend(p: Peer, k: Cont, data: seq<byte>)
    requires PeerInv(p, In(k)) && k != KWriteFatal && !p.c.closing && !p.c.w.sending
    ensures Sent(p, k, SendInLoop(p.c, data), Appending(p.e, data))
  {
    FlattenSnoc(p.c.w.q.frags, data);
  }

  lemma SendStays(p: Peer, k: Cont, o: Outcome, e: Env)
    requires PeerInv(p, In(k)) && k != KWriteFatal && !p.c.closing && Sent(p, k, o, e)
    ensures Lands(Settle(o, e, In(k)), p.c.r.chain, p.e)
  {
  }

  lemma SendSleeps(p: Peer, k: Cont, o: Outcome, e: Env)
    requires PeerInv(p, In(k)) && k != KWriteFatal && !p.c.closing && Sent(p, k, o, e) && OverOut(o.c.cfg, o.c.w.q)
    ensures Lands(Settle(o.(c := SendSuspend(o.c)), e.(co := AtSend), Out(k)), p.c.r.chain, p.e)
  {
  }

  lemma AfterSendKeeps(p: Peer, k: Cont, o: Outcome, e: Env)
    requires PeerInv(p, In(k)) && k != KWriteFatal && !p.c.closing && Sent(p, k, o, e)
    ensures Kept(p, AfterSend(o, e, k))
  {
    if OverOut(o.c.cfg, o.c.w.q) { SendSleeps(p, k, o, e); } else { SendStays(p, k, o, e); }
  }

  lemma CoSendKeeps(p: Peer, k: Cont, data: seq<byte>)
    requires PeerInv(p, In(k)) && k != KWriteFatal
    ensures Kept(p, CoSend(p, k, data))
  {
    if !p.c.closing {
      if p.c.w.sending { BusySend(p, k, data); } else { IdleSend(p, k, data); }
      AfterSendKeeps(p, k, SendInLoop(p.c, data), Appending(p.e, data));
    }
  }

  lemma KernelWriteKeeps(p: Peer, m: Mode, res: int)
    requires PeerInv(p, m) && p.e.tx.wr == WriteArmed
    requires res <= |Flatten(p.c.w.batch)| && (res >= 0 || WriteFatal(res))
    ensures Kept(p, Turn(KernelWrite(p, res), m, false))
  {
    FlattenSplit(p.c.w.q.frags, p.c.w.q.cur);
  }
}
