/** The two places where a failing write breaks what the send path otherwise promises, and
    exactly when it does. */
module WriteFailures {
  import opened Bytes
  import opened SendQueues
  import opened Connections
  import opened Peers
  import opened Chains
  import ConnectionSystem

  // ----- A coroutine that sends again after a failed write --------------------

  datatype CoAct = ARead(n: nat) | ARecv | ASend(data: seq<byte>) | AFinish

  function CoTurn(mem: Memory, p: Peer, a: CoAct): Turn {
    match a
    case ARead(n) => Turn(ConnectionSystem.ConsumePeer(mem, p, n), In(KWriteFatal), false)
    case ARecv => CoRecv(p, KWriteFatal)
    case ASend(data) => CoSend(p, KWriteFatal, data)
    case AFinish => CoFinish(p, KWriteFatal)
  }

  /** The coroutine runs, resumed by the write failure, until it returns control. */
  function RunCo(mem: Memory, p: Peer, acts: seq<CoAct>): (Peer, Mode)
    decreases |acts|
  {
    if acts == [] then (p, In(KWriteFatal))
    else
      var t := CoTurn(mem, p, acts[0]);
      if t.mode.In? then RunCo(mem, t.p, acts[1..]) else (t.p, t.mode)
  }

  /** Whether the coroutine sends before it returns control. */
  predicate Sends(mem: Memory, p: Peer, acts: seq<CoAct>)
    decreases |acts|
  {
    acts != [] && (acts[0].ASend? || (var t := CoTurn(mem, p, acts[0]); t.mode.In? && Sends(mem, t.p, acts[1..])))
  }

  /** A write is outstanding but its context holds no reference to the connection. */
  predicate Dangling(p: Peer) {
    p.e.tx.wr != WriteNone && !p.c.w.holder
  }

  /** The completion of such a write fails the first assertion of the handler. */
  lemma DanglingFaults(p: Peer, res: int)
    requires Dangling(p)
    ensures ReapWrite(p.(e := p.e.(tx := p.e.tx.(wr := WriteEnded(res))))).fault
  {
  }

  lemma {:induction false} WriteStays(mem: Memory, p: Peer, acts: seq<CoAct>)
    requires p.e.tx.wr != WriteNone
    ensures RunCo(mem, p, acts).0.e.tx.wr != WriteNone
    decreases |acts|
  {
    if acts != [] {
      var t := CoTurn(mem, p, acts[0]);
      assert t.p.e.tx.wr != WriteNone;
      if t.mode.In? { WriteStays(mem, t.p, acts[1..]); }
    }
  }

  /** A step other than a send keeps the invariant. */
  lemma QuietTurn(mem: Memory, p: Peer, a: CoAct)
    requires PeerInv(p, In(KWriteFatal)) && !a.ASend?
    ensures PeerInv(CoTurn(mem, p, a).p, CoTurn(mem, p, a).mode)
  {
    match a
    case ARead(n) => ConnectionSystem.ConsumePeerKeeps(mem, p, KWriteFatal, n);
    case ARecv => CoRecvKeeps(p, KWriteFatal);
    case AFinish => CoFinishKeeps(p, KWriteFatal);
  }

  lemma FirstSend(p: Peer, data: seq<byte>)
    requires PeerInv(p, In(KWriteFatal))
    ensures CoSend(p, KWriteFatal, data).p.e.tx.wr == WriteAsked
  {
  }

  lemma {:induction false} RunCoSplits(mem: Memory, p: Peer, acts: seq<CoAct>)
    requires PeerInv(p, In(KWriteFatal))
    ensures var (q, m) := RunCo(mem, p, acts);
      if Sends(mem, p, acts) then q.e.tx.wr != WriteNone else PeerInv(q, m)
    decreases |acts|
  {
    if acts != [] {
      var t := CoTurn(mem, p, acts[0]);
      if acts[0].ASend? {
        FirstSend(p, acts[0].data);
        if t.mode.In? { WriteStays(mem, t.p, acts[1..]); }
      } else {
        QuietTurn(mem, p, acts[0]);
        if t.mode.In? { RunCoSplits(mem, t.p, acts[1..]); }
      }
    }
  }

  /** After a failed write the connection is closed with a write left dangling exactly when
      the resumed coroutine sent something before it returned. */
  lemma FailedWriteExact(mem: Memory, p: Peer, acts: seq<CoAct>)
    requires PeerInv(p, In(KWriteFatal)) && RunCo(mem, p, acts).1 == Out(KWriteFatal)
    ensures Dangling(Continue(RunCo(mem, p, acts).0, KWriteFatal).p) <==> Sends(mem, p, acts)
  {
    RunCoSplits(mem, p, acts);
    var q := RunCo(mem, p, acts).0;
    if !Sends(mem, p, acts) { ContinueKeeps(q, KWriteFatal); }
  }

  const TINY := Config(0, 0, 0, 1)

  /** A coroutine that has sent a byte above the mark of zero and sleeps. */
  function Asleep(): Peer {
    Continue(CoSend(Establish(NewPeer(TINY)).p, KReturn, [1]).p, KReturn).p
  }

  /** Its write completes with `res`, and the completion is handled. */
  function Failed(res: int): Turn {
    ReapWrite(KernelWrite(IssueWrite(Asleep()), res))
  }

  lemma AsleepState()
    ensures Asleep().c == NewConn(TINY).(task := true, w := WriteContext(SendQ([[1]], 1), [[1]], true, true, true, false))
    ensures Asleep().e.tx.wr == WriteAsked
  {
    var woke := CoSend(Establish(NewPeer(TINY)).p, KReturn, [1]).p;
    assert woke.c.w.q.frags == [[1]];
  }

  /** The write fails with EPIPE; one more send, and the next completion faults. */
  lemma SendAgainFaults()
    ensures Dangling(Continue(CoSend(Failed(-EPIPE).p, KWriteFatal, [2]).p, KWriteFatal).p)
  {
    AsleepState();
    var woken := Failed(-EPIPE).p;
    assert woken.c.w == Asleep().c.w.(error := true, sending := false);
    assert !woken.c.closing;
  }

  // ----- A write that fails with a transient error ----------------------------

  predicate Transient(res: int) { res < 0 && !WriteFatal(res) }

  ghost predicate SameLengths(f: seq<seq<byte>>, g: seq<seq<byte>>) {
    |f| == |g| && forall i :: 0 <= i < |f| ==> |f[i]| == |g[i]|
  }

  /** However many bytes of the batch the kernel takes, they and what `retrieve` then leaves
      are what was pending. */
  ghost predicate BatchSound(frags: seq<seq<byte>>, batch: seq<seq<byte>>) {
    forall n :: 0 <= n <= |Flatten(batch)| ==>
      Flatten(batch)[..n] + Flatten(Skip(frags, n)) == Flatten(frags)
  }

  ghost function WithFrags(c: Conn, f: seq<seq<byte>>): Conn {
    c.(w := c.w.(q := SendQ(f, c.w.q.cur)))
  }

  /** The handler of the error passes its assertions and the batch it sends is sound. */
  ghost predicate Recovers(c: Conn, res: int) {
    var o := OnWrite(c, res);
    o.ok && (Flatten(c.w.q.frags) != [] ==> BatchSound(c.w.q.frags, o.c.w.batch))
  }

  /** What the code does on a transient error: the cursor is not taken back. */
  lemma TransientOutcome(c: Conn, res: int)
    requires Transient(res) && c.w.holder && Flatten(c.w.q.frags) != []
    ensures OnWrite(c, res).c.w.batch == BatchOf(c.w.q, c.cfg.maxSlices)
    ensures OnWrite(c, res).ok <==> BatchOf(c.w.q, c.cfg.maxSlices) != []
  {
  }

  lemma {:induction false} SameLengthsFlatten(f: seq<seq<byte>>, g: seq<seq<byte>>)
    requires SameLengths(f, g)
    ensures |Flatten(f)| == |Flatten(g)|
  {
    if f != [] { SameLengthsFlatten(f[1..], g[1..]); }
  }

  /** A batch that starts at the first pending byte, or carries none, is sound. */
  lemma SoundIf(q: SendQ, max: nat)
    requires q.cur <= |q.frags|
    requires Flatten(q.frags[..q.cur]) == [] || Flatten(BatchOf(q, max)) == []
    ensures BatchSound(q.frags, BatchOf(q, max))
  {
    var rest := q.frags[q.cur..];
    var k := Min(max, |rest|);
    assert BatchOf(q, max) == rest[..k];
    FlattenSplit(q.frags, q.cur);
    FlattenSplit(rest, k);
    forall n | 0 <= n <= |Flatten(rest[..k])|
      ensures Flatten(rest[..k])[..n] + Flatten(Skip(q.frags, n)) == Flatten(q.frags)
    {
      SkipDropsBytes(q.frags, n);
      PutBack(Flatten(q.frags[..q.cur]), Flatten(rest[..k]), Flatten(rest[k..]), n);
    }
  }

  lemma PutBack(a: seq<byte>, b: seq<byte>, c: seq<byte>, n: nat)
    requires (a == [] || b == []) && n <= |b|
    ensures b[..n] + (a + (b + c))[n..] == a + (b + c)
  {
  }

  /** Fragments of the same lengths: zeros before the cursor, ones from it on. */
  ghost function Paint(frags: seq<seq<byte>>, cur: nat): (r: seq<seq<byte>>)
    ensures SameLengths(r, frags)
    ensures forall i :: 0 <= i < |r| ==> r[i] == Ink(|frags[i]|, if i < cur then 0 else 1)
  {
    seq(|frags|, i requires 0 <= i < |frags| => Ink(|frags[i]|, if i < cur then 0 else 1))
  }

  ghost function Ink(n: nat, b: byte): (r: seq<byte>)
    ensures |r| == n && forall k :: 0 <= k < n ==> r[k] == b
  {
    seq(n, _ => b)
  }

  lemma {:induction false} AllOf(f: seq<seq<byte>>, b: byte)
    requires forall i, k :: 0 <= i < |f| && 0 <= k < |f[i]| ==> f[i][k] == b
    ensures forall k :: 0 <= k < |Flatten(f)| ==> Flatten(f)[k] == b
  {
    if f != [] { AllOf(f[1..], b); }
  }

  /** Bytes skipped and bytes sent ahead of them: not sound for the painted contents. */
  lemma PaintedUnsound(q: SendQ, max: nat)
    requires q.cur <= |q.frags|
    requires Flatten(q.frags[..q.cur]) != [] && Flatten(BatchOf(q, max)) != []
    ensures var f := Paint(q.frags, q.cur); !BatchSound(f, BatchOf(SendQ(f, q.cur), max))
  {
    var f := Paint(q.frags, q.cur);
    var batch := BatchOf(SendQ(f, q.cur), max);
    SameLengthsFlatten(f[..q.cur], q.frags[..q.cur]);
    SameLengthsFlatten(batch, BatchOf(q, max));
    FlattenSplit(f, q.cur);
    AllOf(f[..q.cur], 0);
    AllOf(batch, 1);
    assert Flatten(f)[0] == 0;
    assert Flatten(batch)[..1] == [1];
    assert (Flatten(batch)[..1] + Flatten(Skip(f, 1)))[0] == 1;
  }

  /** After a transient error, the code recovers for all contents of these lengths exactly
      when the failed batch carried no bytes, or the slices after it exist and carry none. */
  lemma TransientExact(c: Conn, res: int)
    requires Transient(res) && c.w.holder && c.cfg.maxSlices >= 1 && c.w.q.cur <= |c.w.q.frags|
    ensures (forall f | SameLengths(f, c.w.q.frags) :: Recovers(WithFrags(c, f), res)) <==>
            (|| Flatten(c.w.q.frags[..c.w.q.cur]) == []
             || (c.w.q.cur < |c.w.q.frags| && Flatten(BatchOf(c.w.q, c.cfg.maxSlices)) == []))
  {
    var q, max := c.w.q, c.cfg.maxSlices;
    if Flatten(q.frags[..q.cur]) == [] || (q.cur < |q.frags| && Flatten(BatchOf(q, max)) == []) {
      forall f | SameLengths(f, q.frags) ensures Recovers(WithFrags(c, f), res) {
        RecoversIf(c, res, f);
      }
    } else if q.cur == |q.frags| {
      NoSliceLeft(c, res);
      assert SameLengths(q.frags, q.frags) && WithFrags(c, q.frags) == c;
    } else {
      PaintedFails(c, res);
    }
  }

  lemma RecoversIf(c: Conn, res: int, f: seq<seq<byte>>)
    requires Transient(res) && c.w.holder && c.cfg.maxSlices >= 1 && c.w.q.cur <= |c.w.q.frags|
    requires SameLengths(f, c.w.q.frags)
    requires || Flatten(c.w.q.frags[..c.w.q.cur]) == []
             || (c.w.q.cur < |c.w.q.frags| && Flatten(BatchOf(c.w.q, c.cfg.maxSlices)) == [])
    ensures Recovers(WithFrags(c, f), res)
  {
    var q, d := SendQ(f, c.w.q.cur), WithFrags(c, f);
    if Flatten(f) != [] {
      SameLengthsFlatten(f[..q.cur], c.w.q.frags[..q.cur]);
      SameLengthsFlatten(BatchOf(q, c.cfg.maxSlices), BatchOf(c.w.q, c.cfg.maxSlices));
      FlattenSplit(f, q.cur);
      SoundIf(q, c.cfg.maxSlices);
      TransientOutcome(d, res);
    }
  }

  /** Every fragment was in the failed batch: the new batch is empty, which is asserted not
      to happen. */
  lemma NoSliceLeft(c: Conn, res: int)
    requires Transient(res) && c.w.holder && c.w.q.cur == |c.w.q.frags| && Flatten(c.w.q.frags[..c.w.q.cur]) != []
    ensures !OnWrite(c, res).ok
  {
    assert c.w.q.frags[..c.w.q.cur] == c.w.q.frags;
    TransientOutcome(c, res);
  }

  lemma PaintedFails(c: Conn, res: int)
    requires Transient(res) && c.w.holder && c.w.q.cur <= |c.w.q.frags|
    requires Flatten(c.w.q.frags[..c.w.q.cur]) != [] && Flatten(BatchOf(c.w.q, c.cfg.maxSlices)) != []
    ensures var f := Paint(c.w.q.frags, c.w.q.cur); SameLengths(f, c.w.q.frags) && !Recovers(WithFrags(c, f), res)
  {
    var f := Paint(c.w.q.frags, c.w.q.cur);
    PaintedUnsound(c.w.q, c.cfg.maxSlices);
    SameLengthsFlatten(f, c.w.q.frags);
    FlattenSplit(c.w.q.frags, c.w.q.cur);
    TransientOutcome(WithFrags(c, f), res);
  }

  /** EAGAIN on the only fragment trips the assertion in `flush`. */
  lemma EagainTripsAssertion()
    ensures Failed(-EAGAIN).fault
  {
    AsleepState();
    var c := Asleep().c;
    assert c.w.q.frags[..1] == [[1]] && Flatten([[1 as byte]]) == [1];
    NoSliceLeft(c, -EAGAIN);
  }
}
