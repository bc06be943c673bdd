/** Any number of connections on one pool: whatever one of them does, and whatever the kernel
    delivers, the others keep their state and their unread bytes. */
module SharedPools {
  import opened Bytes
  import opened Pointers
  import opened Connections
  import opened Chains
  import opened ChunkPools
  import opened InputBuffers
  import opened TcpConnections

  /** Distinct connections with their own buffers, all on `pool`. */
  ghost predicate Together(conns: set<TcpConnection>, pool: ChunkPool)
    reads conns, set c <- conns :: c.input, set c <- conns :: c.output, pool, pool.ring
  {
    && pool.Valid()
    && (forall c {:trigger OnPool(c, pool)} :: c in conns ==> OnPool(c, pool))
    && Distinct(conns)
  }

  ghost predicate OnPool(c: TcpConnection, pool: ChunkPool)
    reads c, c.input, pool, pool.ring, c.output
  {
    c.input.pool == pool && c.Valid()
  }

  ghost predicate Distinct(conns: set<TcpConnection>) {
    forall c, d {:trigger Separate(c, d)} :: c in conns && d in conns && c != d ==> Separate(c, d)
  }

  ghost predicate Separate(c: TcpConnection, d: TcpConnection) {
    c.input != d.input && c.output != d.output
  }

  /** The unread bytes of a connection. */
  ghost function Stored(c: TcpConnection): seq<byte>
    reads c, c.input, c.input.pool
  {
    SlotBytes(c.input.Mem(), c.input.View())
  }

  /** The connection is as it was, and so are the bytes it has not read. */
  twostate predicate Same(d: TcpConnection)
    reads d, d.input, d.input.pool, d.output
  {
    && d.output.Valid() && old(d.output.Valid())
    && d.View() == old(d.View()) && Stored(d) == old(Stored(d))
  }

  /** What a connection can be made to do: handle a completion, whatever its coroutine may
      ask, start it, close, and what follows the resumption on the two fatal paths. */
  datatype Event =
    | ReadDone(cqe: Cqe)
    | WriteDone(res: int)
    | TakeBytes(size: nat)
    | SendData(data: seq<byte>)
    | AwaitData
    | StartTask
    | CloseNow
    | EndRead
    | EndWrite

  /** What the event does to the connection, as a value, and what it asks for. */
  ghost function Did(c: Conn, e: Event): Outcome {
    match e
    case ReadDone(cqe) => OnRead(c, cqe)
    case WriteDone(res) => OnWrite(c, res)
    case TakeBytes(size) => Outcome(c.(r := c.r.(chain := Consume(c.r.chain, size).0)), NONE, Finished, true)
    case SendData(data) => SendAwaited(c, data)
    case AwaitData => RecvSuspend(c)
    case StartTask => Outcome(c.(task := true), NONE, Finished, true)
    case EndRead => FinishReadFatal(c)
    case EndWrite => FinishWriteFatal(c)
    case CloseNow => var (d, fx) := HandleClose(c); Outcome(d, fx, Finished, true)
  }

  /** The bytes a completion brings. */
  ghost function Brought(mem: Memory, e: Event): seq<byte> {
    if e.ReadDone? && e.cqe.res > 0 then SlotData(mem, Slot(e.cqe.idx, 0, e.cqe.res)) else []
  }

  /** The assertions the code makes of it. */
  ghost predicate Fitting(c: TcpConnection, e: Event)
    requires c.output.Valid()
    reads c, c.input, c.input.pool, c.output
  {
    match e
    case ReadDone(cqe) => c.CqeFits(cqe) && OnRead(c.View(), cqe).ok
    case WriteDone(res) => OnWrite(c.View(), res).ok
    case SendData(data) => SendInLoop(c.View(), data).ok
    case _ => true
  }

  /** The unread bytes before and after: a completion adds to them, reading takes from their
      front, and nothing else changes them. */
  ghost predicate Accounted(mem: Memory, e: Event, before: seq<byte>, bytes: seq<byte>, after: seq<byte>) {
    match e
    case ReadDone(_) => after == before + Brought(mem, e) && bytes == []
    case TakeBytes(size) => bytes + after == before && |bytes| == Min(size, |before|)
    case _ => after == before && bytes == []
  }

  /** The ring before and after: only reading gives chunks back. */
  ghost predicate Recycled(e: Event, chain: seq<Slot>, fifo: seq<nat>, now: seq<nat>) {
    if e.TakeBytes? then now == fifo + Idx(Consume(chain, e.size).1) else now == fifo
  }

  lemma OnReadChain(c: Conn, cqe: Cqe)
    ensures OnRead(c, cqe).c.r.chain == if cqe.res > 0 then c.r.chain + [Slot(cqe.idx, 0, cqe.res)] else c.r.chain
  {
    var (d, fx) := TakeRead(c, cqe);
    assert HandleClose(d).0.r.chain == d.r.chain;
  }

  /** The chain and its bytes after a read completion. */
  lemma BytesBrought(mem: Memory, c: Conn, cqe: Cqe)
    ensures SlotBytes(mem, OnRead(c, cqe).c.r.chain) == SlotBytes(mem, c.r.chain) + Brought(mem, ReadDone(cqe))
  {
    OnReadChain(c, cqe);
    if cqe.res > 0 {
      var s := Slot(cqe.idx, 0, cqe.res);
      SlotBytesConcat(mem, c.r.chain, [s]);
      assert SlotBytes(mem, [s]) == SlotData(mem, s);
    }
  }

  method HandleRead(c: TcpConnection, cqe: Cqe) returns (fx: Fx, next: Next)
    requires c.Valid() && Fitting(c, ReadDone(cqe))
    modifies c, c.input, c.input.pool`chunks, c.input.pool`home
    ensures c.Valid() && Outcome(c.View(), fx, next, true) == OnRead(old(c.View()), cqe)
    ensures Untouched(old(c.input.pool.chunks), old(c.input.pool.home), c.input.pool.chunks, c.input.pool.home, c.input)
    ensures c.input.Mem() == old(c.input.Mem())
    ensures Accounted(c.input.Mem(), ReadDone(cqe), old(Stored(c)), [], Stored(c))
  {
    BytesBrought(c.input.Mem(), c.View(), cqe);
    fx, next := c.OnReadCompletion(cqe);
  }

  method HandleTake(c: TcpConnection, size: nat) returns (bytes: seq<byte>)
    requires c.Valid()
    modifies c.input, c.input.pool, c.input.pool.ring
    ensures c.Valid() && Outcome(c.View(), NONE, Finished, true) == Did(old(c.View()), TakeBytes(size))
    ensures Untouched(old(c.input.pool.chunks), old(c.input.pool.home), c.input.pool.chunks, c.input.pool.home, c.input)
    ensures c.input.Mem() == old(c.input.Mem())
    ensures Accounted(c.input.Mem(), TakeBytes(size), old(Stored(c)), bytes, Stored(c))
    ensures Recycled(TakeBytes(size), old(c.input.View()), old(c.input.pool.ring.fifo), c.input.pool.ring.fifo)
  {
    ThreadedFits(c.input.pool.chunks, c.input.spine);
    ChainLenBytes(c.input.Mem(), c.input.View());
    bytes := c.ReadBytes(size);
  }

  /** The events that do not touch the input. */
  method HandleOther(c: TcpConnection, e: Event) returns (fx: Fx, next: Next)
    requires c.Valid() && Fitting(c, e) && !e.ReadDone? && !e.TakeBytes?
    modifies c, c.output
    ensures c.Valid() && Outcome(c.View(), fx, next, true) == Did(old(c.View()), e)
  {
    fx, next := NONE, Finished;
    match e {
      case WriteDone(res) => fx, next := c.OnWriteCompletion(res);
      case SendData(data) => fx := c.AwaitSend(data);
      case AwaitData => fx := c.SuspendInRecv();
      case StartTask => c.Established();
      case CloseNow => fx := c.Close();
      case EndRead => fx := c.AfterFatalRead();
      case EndWrite => fx := c.AfterFatalWrite();
    }
  }

  /** The connection did what the event says, asked for what it asks, gave back the chunks that
      reading exhausts, kept its bytes but for those brought or read, and touched no chunk of
      another buffer. */
  twostate predicate Worked(c: TcpConnection, e: Event, fx: Fx, next: Next, bytes: seq<byte>)
    reads c, c.input, c.input.pool, c.input.pool.ring, c.output
  {
    && c.output.Valid() && old(c.output.Valid())
    && Outcome(c.View(), fx, next, true) == Did(old(c.View()), e)
    && c.input.Mem() == old(c.input.Mem()) && Accounted(c.input.Mem(), e, old(Stored(c)), bytes, Stored(c))
    && Recycled(e, old(c.input.View()), old(c.input.pool.ring.fifo), c.input.pool.ring.fifo)
    && Untouched(old(c.input.pool.chunks), old(c.input.pool.home), c.input.pool.chunks, c.input.pool.home, c.input)
  }

  /** One connection handles an event. */
  method Handle(c: TcpConnection, e: Event) returns (fx: Fx, next: Next, bytes: seq<byte>)
    requires c.Valid() && Fitting(c, e)
    modifies c, c.input, c.input.pool, c.input.pool.ring, c.output
    ensures c.Valid() && Worked(c, e, fx, next, bytes)
  {
    fx, next, bytes := NONE, Finished, [];
    match e {
      case ReadDone(cqe) => fx, next := HandleRead(c, cqe);
      case TakeBytes(size) => bytes := HandleTake(c, size);
      case _ =>
        SameUntouched(c.input.pool.chunks, c.input.pool.home, c.input);
        fx, next := HandleOther(c, e);
    }
  }

  /** The fields of a buffer fit its list. */
  ghost predicate Fields(b: InputChainBuffer, v: seq<Slot>)
    reads b
  {
    && b.chunks == |b.spine| && b.totalLen == ChainLen(v) && Unread(v)
    && b.head == (if b.spine == [] then Null else At(b.spine[0]))
    && b.tail == (if b.spine == [] then Null else At(b.spine[|b.spine| - 1]))
  }

  /** A connection whose own fields fit the list that the pool still holds for it. */
  lemma StillOnPool(d: TcpConnection, pool: ChunkPool)
    requires d.input.pool == pool && pool.Valid() && d.output.Valid()
    requires Threaded(pool.chunks, d.input.spine) && Lists(pool.home, d.input, d.input.spine)
    requires Fields(d.input, SlotsOf(pool.chunks, d.input.spine))
    ensures OnPool(d, pool)
  {
  }

  /** One of the connections acts; all stay valid, the others notice nothing, and its own bytes
      change by what it reads and what a completion brings. */
  method Act(conns: set<TcpConnection>, pool: ChunkPool, c: TcpConnection, e: Event)
    returns (fx: Fx, next: Next, bytes: seq<byte>)
    requires Together(conns, pool) && c in conns && OnPool(c, pool) && Fitting(c, e)
    modifies c, c.input, pool, pool.ring, c.output
    ensures Together(conns, pool) && OnPool(c, pool) && Worked(c, e, fx, next, bytes)
    ensures forall d {:trigger Same(d)} :: d in conns && d != c ==> Same(d)
  {
    ghost var was, lived := pool.chunks, pool.home;
    fx, next, bytes := Handle(c, e);
    ghost var rest := conns - {c};
    forall d | d in rest ensures OnPool(d, pool) && Same(d) {
      assert old(OnPool(d, pool)) && Separate(c, d);
      OtherBufferKept(was, lived, pool.chunks, pool.home, c.input, d.input, d.input.spine);
      StillOnPool(d, pool);
    }
  }

  /** The kernel fills a chunk: no connection notices, and any of them may get the completion. */
  method Fill(conns: set<TcpConnection>, pool: ChunkPool, payload: seq<byte>) returns (id: nat)
    requires Together(conns, pool) && pool.ring.fifo != [] && |payload| <= pool.chunkSize
    modifies pool`chunks, pool`home, pool.ring
    ensures Together(conns, pool) && id == old(pool.ring.fifo)[0] && pool.ring.fifo == old(pool.ring.fifo)[1..]
    ensures id < |pool.chunks| && payload <= pool.chunks[id].data
    ensures id < |old(pool.chunks)| == |old(pool.home)| && |payload| <= |old(pool.chunks)[id].data|
    ensures pool.home == old(pool.home)[id := Taken]
    ensures MemoryOf(pool.chunks) == (var mem := old(MemoryOf(pool.chunks)); mem[id := payload + mem[id][|payload|..]])
    ensures forall d {:trigger Same(d)} :: d in conns ==> Same(d) && d.CqeFits(Cqe(|payload|, true, id))
  {
    ghost var was, lived := pool.chunks, pool.home;
    id := pool.Deliver(payload);
    UntouchedBut(was, lived, pool.chunks, pool.home, pool, id, pool.chunks[id], Taken);
    forall d | d in conns ensures OnPool(d, pool) && Same(d) && d.CqeFits(Cqe(|payload|, true, id)) {
      assert old(OnPool(d, pool));
      OtherBufferKept(was, lived, pool.chunks, pool.home, pool, d.input, d.input.spine);
    }
  }

  /** A receive from end to end: the kernel fills a chunk, the completion is handled, and the
      payload stands behind the bytes that the connection had. */
  method Receive(conns: set<TcpConnection>, pool: ChunkPool, c: TcpConnection, payload: seq<byte>, more: bool)
    returns (fx: Fx, next: Next)
    requires Together(conns, pool) && c in conns && OnPool(c, pool)
    requires pool.ring.fifo != [] && 0 < |payload| <= pool.chunkSize
    requires OnRead(c.View(), Cqe(|payload|, more, pool.ring.fifo[0])).ok
    modifies c, c.input, pool, pool.ring, c.output
    ensures Together(conns, pool) && OnPool(c, pool) && Stored(c) == old(Stored(c)) + payload
    ensures Outcome(c.View(), fx, next, true) == OnRead(old(c.View()), Cqe(|payload|, more, old(pool.ring.fifo)[0]))
  {
    var id := Fill(conns, pool, payload);
    assert Same(c);
    assert SlotData(c.input.Mem(), Slot(id, 0, |payload|)) == payload;
    var bytes;
    fx, next, bytes := Act(conns, pool, c, ReadDone(Cqe(|payload|, more, id)));
  }

  /** A new connection joins. */
  method Join(conns: set<TcpConnection>, pool: ChunkPool, cfg: Config) returns (c: TcpConnection)
    requires Together(conns, pool)
    ensures fresh(c) && Together(conns + {c}, pool)
    ensures OnPool(c, pool) && c.View() == NewConn(cfg)
  {
    c := new TcpConnection(cfg, pool);
    forall d | d in conns ensures OnPool(d, pool) { assert old(OnPool(d, pool)); }
    ghost var all := conns + {c};
    forall x, y | x in all && y in all && x != y ensures Separate(x, y) {
      if x in conns && y in conns { assert Separate(x, y); }
    }
  }

  /** A connection is destroyed: its chunks go back in order, and the others notice nothing. */
  method Leave(conns: set<TcpConnection>, pool: ChunkPool, c: TcpConnection)
    requires Together(conns, pool) && c in conns && OnPool(c, pool)
    modifies c.input, pool, pool.ring
    ensures Together(conns - {c}, pool) && pool.ring.fifo == old(pool.ring.fifo) + old(c.input.spine)
    ensures MemoryOf(pool.chunks) == old(MemoryOf(pool.chunks)) && Lists(pool.home, c.input, [])
    ensures Untouched(old(pool.chunks), old(pool.home), pool.chunks, pool.home, c.input)
    ensures forall d {:trigger Same(d)} :: d in conns - {c} ==> Same(d)
  {
    ghost var was, lived := pool.chunks, pool.home;
    c.input.Dispose();
    ghost var rest := conns - {c};
    forall d | d in rest ensures OnPool(d, pool) && Same(d) {
      assert old(OnPool(d, pool)) && Separate(c, d);
      OtherBufferKept(was, lived, pool.chunks, pool.home, c.input, d.input, d.input.spine);
    }
    forall x, y | x in rest && y in rest && x != y ensures Separate(x, y) { }
  }
}
