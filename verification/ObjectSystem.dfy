/** The objects follow the system: connections and pool as objects, beside a state of the
    system of runs.  The invariant of the runs discharges every assertion that the objects'
    methods make, and every step of the system is matched by what the objects do. */
module ObjectSystem {
  import opened Bytes
  import opened Connections
  import opened Chains
  import opened Ownership
  import opened BufferRings
  import opened ChunkPools
  import opened InputBuffers
  import opened TcpConnections
  import opened SharedPools
  import opened Peers
  import S = ConnectionSystem

  /** The objects show the state: connections by number, the ring and the chunks' bytes.  A chunk
      in a chain is in the chain of one of the connections. */
  ghost predicate Mirrors(s: S.State, conns: map<nat, TcpConnection>, pool: ChunkPool)
    reads conns.Values, set c <- conns.Values :: c.input, set c <- conns.Values :: c.output, pool, pool.ring
  {
    && Together(conns.Values, pool)
    && Numbered(conns) && conns.Keys == s.conns.Keys
    && s.ring == pool.ring.fifo && s.mem == MemoryOf(pool.chunks)
    && Tenants(pool.home, conns)
    && (forall i {:trigger Shows(s, conns, pool, i)} :: i in conns ==> Shows(s, conns, pool, i))
  }

  /** No object has two numbers. */
  ghost predicate Numbered(conns: map<nat, TcpConnection>) {
    forall i, j {:trigger conns[i], conns[j]} :: i in conns && j in conns && i != j ==> conns[i] != conns[j]
  }

  ghost predicate Tenants(home: seq<Home>, conns: map<nat, TcpConnection>) {
    forall k: nat {:trigger TenantAt(home, conns, k)} :: k < |home| ==> TenantAt(home, conns, k)
  }

  ghost predicate TenantAt(home: seq<Home>, conns: map<nat, TcpConnection>, k: nat)
    requires k < |home|
  {
    home[k].Chained? ==> exists i :: i in conns && conns[i].input == home[k].owner
  }

  ghost predicate Shows(s: S.State, conns: map<nat, TcpConnection>, pool: ChunkPool, i: nat)
    requires i in conns
    reads conns[i], conns[i].input, pool, pool.ring, conns[i].output
  {
    i in s.conns && OnPool(conns[i], pool) && s.conns[i].c == conns[i].View()
  }

  /** A new pool, and no connection yet, show the state in which every run begins. */
  method Boot(chunkSize: nat, ghost order: nat, chunkNum: nat) returns (pool: ChunkPool)
    requires order <= 15 && chunkNum == Pow2(order)
    ensures S.Inv(S.Init(chunkSize, chunkNum)) && Mirrors(S.Init(chunkSize, chunkNum), map[], pool)
  {
    S.InitInv(chunkSize, chunkNum);
    pool := new ChunkPool(chunkSize, order, chunkNum);
    ghost var s := S.Init(chunkSize, chunkNum);
    assert s.mem == MemoryOf(pool.chunks);
    assert s.ring == pool.ring.fifo;
    forall k: nat | k < |pool.home| ensures TenantAt(pool.home, map[], k) {
      assert RingAt(pool.home, pool.ring.fifo, k) && pool.ring.fifo[k] == k;
    }
  }

  // ----- The chunk of a completion is the kernel's to give -----------------------------

  /** A chunk chained to a connection's buffer is at its place in the system. */
  lemma ChainedPlace(s: S.State, conns: map<nat, TcpConnection>, pool: ChunkPool, j: nat, k: nat)
    requires S.Inv(s) && Mirrors(s, conns, pool) && j in conns && k < |pool.home|
    requires pool.home[k] == Chained(conns[j].input)
    ensures k < |s.place| && s.place[k] == OfConn(j) && k in Idx(s.conns[j].c.r.chain)
  {
    assert Shows(s, conns, pool, j) && S.Well(s, j);
    var b := conns[j].input;
    assert ListAt(pool.home, b, b.spine, k);
    SpineSeq(pool.chunks, b.spine);
    var p := s.conns[j];
    IdxConcat(p.c.r.chain, CqeSlots(p.e.rx.cqes));
  }

  /** The chunk of an unreaped completion is in the hands of the kernel. */
  lemma UnreapedTaken(s: S.State, conns: map<nat, TcpConnection>, pool: ChunkPool, i: nat)
    requires S.Inv(s) && Mirrors(s, conns, pool) && i in conns
    requires s.conns[i].e.rx.cqes != [] && s.conns[i].e.rx.cqes[0].res > 0
    ensures conns[i].CqeFits(s.conns[i].e.rx.cqes[0])
  {
    var p := s.conns[i];
    var cqe, n := p.e.rx.cqes[0], |p.c.r.chain|;
    assert Shows(s, conns, pool, i) && S.Well(s, i);
    assert Slots(p)[n] == Slot(cqe.idx, 0, cqe.res);
    var held := Idx(Slots(p));
    assert held[n] == cqe.idx && cqe.idx in held;
    assert StockedAt(pool.chunks, pool.home, pool.chunkSize, cqe.idx) && RingAt(pool.home, pool.ring.fifo, cqe.idx);
    assert TenantAt(pool.home, conns, cqe.idx);
    if pool.home[cqe.idx].Chained? {
      var j :| j in conns && conns[j].input == pool.home[cqe.idx].owner;
      ChainedPlace(s, conns, pool, j, cqe.idx);
      NotInChain(p, cqe.idx, n);
    }
  }

  lemma NotInChain(p: Peer, idx: nat, n: nat)
    requires NoDup(Idx(Slots(p))) && n == |p.c.r.chain| < |Slots(p)| && Slots(p)[n].idx == idx
    ensures idx !in Idx(p.c.r.chain)
  {
    forall a | 0 <= a < n ensures Idx(p.c.r.chain)[a] != idx { Apart(Idx(Slots(p)), a, n); }
  }

  // ----- What the objects do at a step ---------------------------------------------------

  /** The step acts on connection `i`, and this is the event it means for the object. */
  ghost predicate Matched(s: S.State, a: S.Action, i: nat, e: Event)
    requires S.Possible(s, a)
  {
    match a
    case Start(j) => i == j && e == StartTask
    case ReapReadOf(j) => i == j && e == ReadDone(s.conns[j].e.rx.cqes[0])
    case ReapWriteOf(j) => i == j && e == WriteDone(s.conns[j].e.tx.wr.res)
    case Closed(j) => i == j && e == CloseNow
    case Proceed =>
      i == s.focus.i && s.focus.m.k != KReturn && e == (if s.focus.m.k == KReadFatal then EndRead else EndWrite)
    case Read(n) => i == s.focus.i && e == TakeBytes(n)
    case Recv => i == s.focus.i && !RecvReady(s.conns[i].c) && e == AwaitData
    case Send(data) => i == s.focus.i && !s.conns[i].c.closing && e == SendData(data)
    case _ => false
  }

  /** `n` is `s` but for what the event does to connection `i` and to the ring. */
  ghost predicate Becomes(s: S.State, n: S.State, i: nat, e: Event) {
    && n.conns.Keys == s.conns.Keys && i in s.conns && n.conns[i].c == Did(s.conns[i].c, e).c
    && (forall j :: j in s.conns && j != i ==> n.conns[j] == s.conns[j])
    && n.mem == s.mem && Recycled(e, s.conns[i].c.r.chain, s.ring, n.ring)
  }

  lemma ReadIs(s: S.State, size: nat)
    requires S.Possible(s, S.Read(size))
    ensures Becomes(s, S.Step(s, S.Read(size)), s.focus.i, TakeBytes(size))
  {
  }

  /** The step seen from the connections. */
  lemma StepIs(s: S.State, a: S.Action, i: nat, e: Event)
    requires S.Possible(s, a) && Matched(s, a, i, e)
    ensures Becomes(s, S.Step(s, a), i, e)
  {
    if a.Read? { ReadIs(s, a.n); }
  }

  /** No assertion fails at it, since none fails in the system. */
  lemma StepOk(s: S.State, a: S.Action, i: nat, e: Event)
    requires S.Inv(s) && S.Possible(s, a) && S.Obliges(s, a) && Matched(s, a, i, e)
    ensures S.Inv(S.Step(s, a)) && i in s.conns && Did(s.conns[i].c, e).ok
  {
    S.StepKeeps(s, a);
  }

  /** So the objects may do it. */
  lemma StepFits(s: S.State, conns: map<nat, TcpConnection>, pool: ChunkPool, a: S.Action, i: nat, e: Event)
    requires S.Inv(s) && S.Possible(s, a) && S.Obliges(s, a) && Matched(s, a, i, e) && Mirrors(s, conns, pool)
    ensures i in conns && OnPool(conns[i], pool) && Fitting(conns[i], e)
  {
    StepOk(s, a, i, e);
    assert Shows(s, conns, pool, i);
    if e.ReadDone? && e.cqe.res > 0 { UnreapedTaken(s, conns, pool, i); }
  }

  lemma TenantsKept(home: seq<Home>, there: seq<Home>, chunks: seq<Chunk>, now: seq<Chunk>, conns: map<nat, TcpConnection>, i: nat)
    requires Tenants(home, conns) && i in conns && Untouched(chunks, home, now, there, conns[i].input)
    ensures Tenants(there, conns)
  {
    forall k: nat | k < |there| ensures TenantAt(there, conns, k) {
      assert TenantAt(home, conns, k) && UntouchedAt(chunks, home, now, there, conns[i].input, k);
    }
  }

  /** The object handles the event, and the objects show the next state. */
  method Perform(ghost s: S.State, ghost n: S.State, conns: map<nat, TcpConnection>, pool: ChunkPool, i: nat, e: Event)
    returns (fx: Fx, next: Next, bytes: seq<byte>)
    requires Mirrors(s, conns, pool) && i in conns && OnPool(conns[i], pool) && Fitting(conns[i], e) && Becomes(s, n, i, e)
    modifies conns[i], conns[i].input, pool, pool.ring, conns[i].output
    ensures Mirrors(n, conns, pool) && fx == Did(s.conns[i].c, e).fx && next == Did(s.conns[i].c, e).next
  {
    assert Shows(s, conns, pool, i);
    ghost var chunks, home := pool.chunks, pool.home;
    fx, next, bytes := Act(conns.Values, pool, conns[i], e);
    TenantsKept(home, pool.home, chunks, pool.chunks, conns, i);
    forall j | j in conns ensures Shows(n, conns, pool, j) {
      assert old(Shows(s, conns, pool, j));
      if j != i { assert Same(conns[j]) && OnPool(conns[j], pool); }
    }
  }

  /** A step of the system that acts on a connection: the object does what it says, no
      assertion of its methods fails, and the objects show the next state. */
  method Follow(ghost s: S.State, conns: map<nat, TcpConnection>, pool: ChunkPool, ghost a: S.Action, i: nat, e: Event)
    returns (fx: Fx, next: Next, bytes: seq<byte>)
    requires S.Inv(s) && Mirrors(s, conns, pool) && i in conns
    requires S.Possible(s, a) && S.Obliges(s, a) && Matched(s, a, i, e)
    modifies conns[i], conns[i].input, pool, pool.ring, conns[i].output
    ensures S.Inv(S.Step(s, a)) && Mirrors(S.Step(s, a), conns, pool)
    ensures i in s.conns && fx == Did(s.conns[i].c, e).fx && next == Did(s.conns[i].c, e).next
  {
    StepFits(s, conns, pool, a, i, e);
    StepOk(s, a, i, e);
    StepIs(s, a, i, e);
    fx, next, bytes := Perform(s, S.Step(s, a), conns, pool, i, e);
  }

  // ----- The other steps -------------------------------------------------------------------

  /** Steps of the kernel and of the coroutine that touch no object. */
  ghost predicate Silent(s: S.State, a: S.Action)
    requires S.Possible(s, a)
  {
    match a
    case Proceed => s.focus.m.k == KReturn
    case Recv => RecvReady(s.conns[s.focus.i].c)
    case Send(_) => s.conns[s.focus.i].c.closing
    case _ => a.Finish? || a.IssueRead? || a.IssueWrite? || a.End? || a.Wrote?
  }

  /** Every step acts on one connection, or touches no object, or delivers, accepts or frees. */
  lemma EveryStep(s: S.State, a: S.Action)
    requires S.Possible(s, a)
    ensures a.Data? || a.Accept? || a.Free? || Silent(s, a) || exists i, e :: Matched(s, a, i, e)
  {
    if !a.Data? && !a.Accept? && !a.Free? && !Silent(s, a) {
      var i := if a.Start? || a.ReapReadOf? || a.ReapWriteOf? || a.Closed? then a.i else s.focus.i;
      var e := match a
        case Start(_) => StartTask
        case ReapReadOf(_) => ReadDone(s.conns[i].e.rx.cqes[0])
        case ReapWriteOf(_) => WriteDone(s.conns[i].e.tx.wr.res)
        case Proceed => if s.focus.m.k == KReadFatal then EndRead else EndWrite
        case Read(n) => TakeBytes(n)
        case Recv => AwaitData
        case Send(data) => SendData(data)
        case _ => CloseNow;
      assert Matched(s, a, i, e);
    }
  }

  lemma SilentIs(s: S.State, a: S.Action)
    requires S.Possible(s, a) && Silent(s, a)
    ensures var n := S.Step(s, a);
      && n.conns.Keys == s.conns.Keys && n.ring == s.ring && n.mem == s.mem
      && forall j :: j in s.conns ==> n.conns[j].c == s.conns[j].c
  {
  }

  lemma FollowSilent(s: S.State, conns: map<nat, TcpConnection>, pool: ChunkPool, a: S.Action)
    requires S.Inv(s) && Mirrors(s, conns, pool) && S.Possible(s, a) && S.Obliges(s, a) && Silent(s, a)
    ensures S.Inv(S.Step(s, a)) && Mirrors(S.Step(s, a), conns, pool)
  {
    S.StepKeeps(s, a);
    SilentIs(s, a);
    forall j | j in conns ensures Shows(S.Step(s, a), conns, pool, j) { assert Shows(s, conns, pool, j); }
  }

  lemma DataIs(s: S.State, i: nat, payload: seq<byte>, more: bool)
    requires S.Inv(s) && S.Possible(s, S.Data(i, payload, more))
    ensures var n, k := S.Step(s, S.Data(i, payload, more)), s.ring[0];
      && S.Inv(n) && n.conns.Keys == s.conns.Keys && n.ring == s.ring[1..]
      && n.mem == s.mem[k := payload + s.mem[k][|payload|..]]
      && forall j :: j in s.conns ==> n.conns[j].c == s.conns[j].c
  {
    S.StepKeeps(s, S.Data(i, payload, more));
  }

  lemma TakenTenants(home: seq<Home>, there: seq<Home>, conns: map<nat, TcpConnection>, id: nat)
    requires Tenants(home, conns) && id < |home| && there == home[id := Taken]
    ensures Tenants(there, conns)
  {
    forall k: nat | k < |there| ensures TenantAt(there, conns, k) { assert TenantAt(home, conns, k); }
  }

  /** The kernel fills the chunk at the front of the ring. */
  method FollowData(ghost s: S.State, conns: map<nat, TcpConnection>, pool: ChunkPool, ghost i: nat, payload: seq<byte>, ghost more: bool)
    requires S.Inv(s) && Mirrors(s, conns, pool) && S.Possible(s, S.Data(i, payload, more))
    modifies pool`chunks, pool`home, pool.ring
    ensures S.Inv(S.Step(s, S.Data(i, payload, more))) && Mirrors(S.Step(s, S.Data(i, payload, more)), conns, pool)
  {
    ghost var n := S.Step(s, S.Data(i, payload, more));
    DataIs(s, i, payload, more);
    assert StockedAt(pool.chunks, pool.home, pool.chunkSize, s.ring[0]);
    ghost var home := pool.home;
    var id := Fill(conns.Values, pool, payload);
    TakenTenants(home, pool.home, conns, id);
    forall j | j in conns ensures Shows(n, conns, pool, j) {
      assert old(Shows(s, conns, pool, j)) && Same(conns[j]) && OnPool(conns[j], pool);
    }
  }

  lemma ValuesWith(conns: map<nat, TcpConnection>, i: nat, c: TcpConnection)
    requires i !in conns
    ensures conns[i := c].Values == conns.Values + {c}
  {
    var now := conns[i := c];
    forall x | x in conns.Values ensures x in now.Values {
      var j :| j in conns && conns[j] == x;
      assert now[j] == x;
    }
    assert now[i] == c;
  }

  lemma ValuesWithout(conns: map<nat, TcpConnection>, i: nat)
    requires Numbered(conns) && i in conns
    ensures (conns - {i}).Values == conns.Values - {conns[i]}
  {
    var now := conns - {i};
    forall x | x in conns.Values - {conns[i]} ensures x in now.Values {
      var j :| j in conns && conns[j] == x;
      assert now[j] == x;
    }
    forall x | x in now.Values ensures x in conns.Values && x != conns[i] {
      var j :| j in now && now[j] == x;
      assert conns[j] == x && j != i;
    }
  }

  lemma MoreTenants(home: seq<Home>, conns: map<nat, TcpConnection>, i: nat, c: TcpConnection)
    requires Tenants(home, conns) && i !in conns
    ensures Tenants(home, conns[i := c])
  {
    var now := conns[i := c];
    forall k: nat | k < |home| ensures TenantAt(home, now, k) {
      assert TenantAt(home, conns, k);
      if home[k].Chained? {
        var j :| j in conns && conns[j].input == home[k].owner;
        assert j in now && now[j] == conns[j];
      }
    }
  }

  /** A connection is accepted. */
  method FollowAccept(ghost s: S.State, conns: map<nat, TcpConnection>, pool: ChunkPool, i: nat, cfg: Config)
    returns (now: map<nat, TcpConnection>)
    requires S.Inv(s) && Mirrors(s, conns, pool) && S.Possible(s, S.Accept(i, cfg))
    ensures S.Inv(S.Step(s, S.Accept(i, cfg))) && Mirrors(S.Step(s, S.Accept(i, cfg)), now, pool)
  {
    ghost var n := S.Step(s, S.Accept(i, cfg));
    S.StepKeeps(s, S.Accept(i, cfg));
    var c := Join(conns.Values, pool, cfg);
    now := conns[i := c];
    ValuesWith(conns, i, c);
    MoreTenants(pool.home, conns, i, c);
    forall j | j in now ensures Shows(n, now, pool, j) {
      if j != i { assert old(Shows(s, conns, pool, j)) && OnPool(conns[j], pool); }
    }
  }

  /** A connection without references is freed. */
  method FollowFree(ghost s: S.State, conns: map<nat, TcpConnection>, pool: ChunkPool, i: nat)
    returns (now: map<nat, TcpConnection>)
    requires S.Inv(s) && Mirrors(s, conns, pool) && S.Possible(s, S.Free(i)) && i in conns
    modifies conns[i].input, pool, pool.ring
    ensures S.Inv(S.Step(s, S.Free(i))) && Mirrors(S.Step(s, S.Free(i)), now, pool)
  {
    ghost var a, n := S.Free(i), S.Step(s, S.Free(i));
    S.StepKeeps(s, a);
    assert Shows(s, conns, pool, i);
    SpineSeq(pool.chunks, conns[i].input.spine);
    ghost var chunks, home := pool.chunks, pool.home;
    Leave(conns.Values, pool, conns[i]);
    now := conns - {i};
    ValuesWithout(conns, i);
    FreedTenants(home, pool.home, chunks, pool.chunks, conns, i);
    forall j | j in now ensures Shows(n, now, pool, j) {
      assert old(Shows(s, conns, pool, j)) && Same(conns[j]) && OnPool(conns[j], pool);
    }
  }

  /** The chunks of a chain are the spine of its buffer. */
  lemma SpineSeq(chunks: seq<Chunk>, spine: seq<nat>)
    ensures Idx(SlotsOf(chunks, spine)) == spine
  {
  }

  lemma FreedTenants(home: seq<Home>, there: seq<Home>, chunks: seq<Chunk>, now: seq<Chunk>, conns: map<nat, TcpConnection>, i: nat)
    requires Tenants(home, conns) && i in conns && Untouched(chunks, home, now, there, conns[i].input)
    requires Lists(there, conns[i].input, [])
    ensures Tenants(there, conns - {i})
  {
    var rest := conns - {i};
    forall k: nat | k < |there| ensures TenantAt(there, rest, k) {
      assert TenantAt(home, conns, k) && UntouchedAt(chunks, home, now, there, conns[i].input, k);
      assert ListAt(there, conns[i].input, [], k);
      if there[k].Chained? {
        var j :| j in conns && conns[j].input == home[k].owner;
        assert j in rest && rest[j] == conns[j];
      }
    }
  }
}
