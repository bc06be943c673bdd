/** The whole system: one event loop, one chunk pool, any number of connections with
    their coroutines, and a kernel that completes requests in any order it likes.

    A run is a sequence of actions; an action that is not possible in a state leaves the
    state alone.  `Inv` holds in every state of every run that keeps to `Assumed`. */
module ConnectionSystem {
  import opened Bytes
  import opened Connections
  import opened Ownership
  import opened Chains
  import opened Peers

  /** The connection whose coroutine the loop is inside of, if any. */
  datatype Focus = Nobody | On(i: nat, m: Mode)

  datatype State = State(
    mem: Memory, ring: seq<nat>, place: seq<Place>, conns: map<nat, Peer>, focus: Focus, fault: bool)

  datatype Action =
    // the loop
    | Accept(i: nat, cfg: Config)
    | Start(i: nat)
    | ReapReadOf(i: nat)
    | ReapWriteOf(i: nat)
    | Closed(i: nat)
    | Free(i: nat)
    | Proceed
    // the coroutine in focus
    | Read(n: nat)
    | Recv
    | Send(data: seq<byte>)
    | Finish
    // the submission queue and the kernel
    | IssueRead(i: nat)
    | IssueWrite(i: nat)
    | Data(i: nat, payload: seq<byte>, more: bool)
    | End(i: nat, res: int)
    | Wrote(i: nat, res: int)

  function Init(chunkSize: nat, chunks: nat): State {
    State(seq(chunks, _ => seq(chunkSize, _ => 0)), seq(chunks, k => k), seq(chunks, _ => InRing),
          map[], Nobody, false)
  }

  function ModeOf(s: State, i: nat): Mode {
    if s.focus.On? && s.focus.i == i then s.focus.m else Idle
  }

  predicate Running(s: State) {
    s.focus.On? && s.focus.i in s.conns && s.focus.m.In?
  }

  predicate Possible(s: State, a: Action) {
    match a
    case Accept(i, cfg) => s.focus == Nobody && i !in s.conns && cfg.maxSlices >= 1
    case Start(i) => s.focus == Nobody && i in s.conns && s.conns[i].e.co == NotStarted
    case ReapReadOf(i) => s.focus == Nobody && i in s.conns && s.conns[i].e.rx.cqes != []
    case ReapWriteOf(i) => s.focus == Nobody && i in s.conns && s.conns[i].e.tx.wr.WriteEnded?
    case Closed(i) => s.focus == Nobody && i in s.conns
    case Free(i) => s.focus == Nobody && i in s.conns && Unreferenced(s.conns[i])
    case Proceed => s.focus.On? && s.focus.i in s.conns && s.focus.m.Out?
    case Read(n) => Running(s)
    case Recv => Running(s)
    case Send(data) => Running(s)
    case Finish => Running(s)
    case IssueRead(i) => i in s.conns && s.conns[i].e.rx.recv == RecvAsked
    case IssueWrite(i) => i in s.conns && s.conns[i].e.tx.wr == WriteAsked
    case Data(i, payload, more) =>
      && i in s.conns && s.conns[i].e.rx.recv == RecvArmed
      && s.ring != [] && s.ring[0] < |s.mem| && 0 < |payload| <= |s.mem[s.ring[0]]|
    case End(i, res) => i in s.conns && s.conns[i].e.rx.recv == RecvArmed && res <= 0
    case Wrote(i, res) =>
      && i in s.conns && s.conns[i].e.tx.wr == WriteArmed
      && res <= |Flatten(s.conns[i].c.w.batch)|
  }

  /** No context and no coroutine frame keeps the connection object alive. */
  predicate Unreferenced(p: Peer) {
    !p.c.r.holder && !p.c.w.holder && p.e.co in {NotStarted, Destroyed}
  }

  /** Puts the result of a turn back. */
  function Put(s: State, i: nat, t: Turn): State {
    s.(conns := s.conns[i := t.p],
       focus := if t.mode.Idle? then Nobody else On(i, t.mode),
       fault := s.fault || t.fault)
  }

  /** A step of the kernel: the loop stays where it is. */
  function Patch(s: State, i: nat, p: Peer): State {
    s.(conns := s.conns[i := p])
  }

  /** `returnOneChunk` for each chunk in turn. */
  function GiveBack(s: State, freed: seq<Slot>): State {
    s.(ring := s.ring + Idx(freed), place := Reassign(s.place, Idx(freed), InRing))
  }

  function ConsumePeer(mem: Memory, p: Peer, n: nat): Peer {
    var bytes := SlotBytes(mem, p.c.r.chain);
    Peer(p.c.(r := p.c.r.(chain := Consume(p.c.r.chain, n).0)),
         p.e.(consumed := p.e.consumed + bytes[..Min(n, |bytes|)]))
  }

  /** The kernel fills the chunk at the front of the ring and posts a completion. */
  function Deliver(s: State, i: nat, payload: seq<byte>, more: bool): State
    requires i in s.conns && s.ring != [] && s.ring[0] < |s.mem| && |payload| <= |s.mem[s.ring[0]]|
  {
    var idx, p := s.ring[0], s.conns[i];
    s.(mem := s.mem[idx := payload + s.mem[idx][|payload|..]],
       ring := s.ring[1..], place := Reassign(s.place, [idx], OfConn(i)),
       conns := s.conns[i := KernelData(p, idx, payload, more)])
  }

  function Do(s: State, a: Action): State
    requires Possible(s, a)
  {
    match a
    case Accept(i, cfg) => Patch(s, i, NewPeer(cfg))
    case Start(i) => Put(s, i, Establish(s.conns[i]))
    case ReapReadOf(i) => Put(s, i, ReapRead(s.conns[i]))
    case ReapWriteOf(i) => Put(s, i, ReapWrite(s.conns[i]))
    case Closed(i) => Put(s, i, Destroy(s.conns[i]))
    case Free(i) => GiveBack(s, s.conns[i].c.r.chain).(conns := s.conns - {i})
    case Proceed => Put(s, s.focus.i, Continue(s.conns[s.focus.i], s.focus.m.k))
    case Read(n) =>
      GiveBack(Patch(s, s.focus.i, ConsumePeer(s.mem, s.conns[s.focus.i], n)),
               Consume(s.conns[s.focus.i].c.r.chain, n).1)
    case Recv => Put(s, s.focus.i, CoRecv(s.conns[s.focus.i], s.focus.m.k))
    case Send(data) => Put(s, s.focus.i, CoSend(s.conns[s.focus.i], s.focus.m.k, data))
    case Finish => Put(s, s.focus.i, CoFinish(s.conns[s.focus.i], s.focus.m.k))
    case IssueRead(i) => Patch(s, i, Peers.IssueRead(s.conns[i]))
    case IssueWrite(i) => Patch(s, i, Peers.IssueWrite(s.conns[i]))
    case Data(i, payload, more) => Deliver(s, i, payload, more)
    case End(i, res) => Patch(s, i, KernelEnd(s.conns[i], res))
    case Wrote(i, res) => Patch(s, i, KernelWrite(s.conns[i], res))
  }

  function Step(s: State, a: Action): State {
    if Possible(s, a) then Do(s, a) else s
  }

  function Exec(s: State, acts: seq<Action>): State
    decreases |acts|
  {
    if acts == [] then s else Exec(Step(s, acts[0]), acts[1..])
  }

  /** What the theorems ask of the environment beyond the kernel's contract: a coroutine
      told of a failed write does not send again before it returns control, and a write
      does not fail with an error the code treats as transient. */
  predicate Obliges(s: State, a: Action) {
    && (a.Send? && s.focus.On? ==> s.focus.m != In(KWriteFatal))
    && (a.Wrote? ==> a.res >= 0 || WriteFatal(a.res))
  }

  predicate Assumed(s: State, acts: seq<Action>)
    decreases |acts|
  {
    acts != [] ==> Obliges(s, acts[0]) && Assumed(Step(s, acts[0]), acts[1..])
  }

  // ----- Invariant -----------------------------------------------------------

  /** The chunks of connection `i` are its own, lie in memory, and together with what was
      consumed they hold everything the kernel received for it. */
  ghost predicate Holding(mem: Memory, place: seq<Place>, i: nat, p: Peer) {
    && Owns(place, OfConn(i), Idx(Slots(p)))
    && Fits(mem, Slots(p))
    && p.e.wire == p.e.consumed + SlotBytes(mem, Slots(p))
  }

  /** The ring lists the chunks in it, and no chunk belongs to a connection that is gone. */
  ghost predicate PoolInv(s: State) {
    && |s.mem| == |s.place|
    && Owns(s.place, InRing, s.ring)
    && (forall j {:trigger Owns(s.place, OfConn(j), [])} :: j !in s.conns ==> Owns(s.place, OfConn(j), []))
  }

  /** All is well with connection `i`. */
  ghost predicate Well(s: State, i: nat)
    requires i in s.conns
  {
    PeerInv(s.conns[i], ModeOf(s, i)) && Holding(s.mem, s.place, i, s.conns[i])
  }

  ghost predicate Inv(s: State) {
    && !s.fault
    && PoolInv(s)
    && (s.focus.On? ==> s.focus.i in s.conns && !s.focus.m.Idle?)
    && (forall i {:trigger Well(s, i)} :: i in s.conns ==> Well(s, i))
  }

  lemma InitInv(chunkSize: nat, chunks: nat)
    ensures Inv(Init(chunkSize, chunks))
  {
    var ring := Init(chunkSize, chunks).ring;
    forall k | 0 <= k < chunks ensures k in ring { assert ring[k] == k; }
  }

  /** Connection `j` is where and as it was, and its chunks too. */
  lemma SameWell(s: State, now: State, j: nat)
    requires j in s.conns && Well(s, j)
    requires j in now.conns && now.conns[j] == s.conns[j] && ModeOf(now, j) == ModeOf(s, j)
    requires Holding(now.mem, now.place, j, s.conns[j])
    ensures Well(now, j)
  {
  }

  /** A turn of one connection that keeps its own side keeps the whole. */
  lemma PutKeeps(s: State, i: nat, t: Turn)
    requires Inv(s) && i in s.conns && (s.focus == Nobody || s.focus.i == i) && Kept(s.conns[i], t)
    ensures Inv(Put(s, i, t))
  {
    var now := Put(s, i, t);
    assert Well(s, i);
    assert Well(now, i);
    forall j | j in now.conns && j != i ensures Well(now, j) {
      assert Well(s, j);
      SameWell(s, now, j);
    }
  }

  lemma PatchKeeps(s: State, i: nat, p: Peer)
    requires Inv(s) && i in s.conns && Kept(s.conns[i], Turn(p, ModeOf(s, i), false))
    ensures Inv(Patch(s, i, p))
  {
    var now := Patch(s, i, p);
    assert Well(s, i);
    assert Well(now, i);
    forall j | j in now.conns && j != i ensures Well(now, j) {
      assert Well(s, j);
      SameWell(s, now, j);
    }
  }

  lemma AcceptKeeps(s: State, i: nat, cfg: Config)
    requires Inv(s) && s.focus == Nobody && i !in s.conns && cfg.maxSlices >= 1
    ensures Inv(Patch(s, i, NewPeer(cfg)))
  {
    var now := Patch(s, i, NewPeer(cfg));
    NewPeerInv(cfg);
    assert Owns(s.place, OfConn(i), []);
    assert Well(now, i);
    forall j | j in s.conns ensures Well(now, j) {
      assert Well(s, j);
      SameWell(s, now, j);
    }
  }

  // ----- Chunks going back to the ring ---------------------------------------

  /** Chunks at the front of one connection's list go back; nobody else notices. */
  lemma GiveBackKeeps(s: State, i: nat, freed: seq<Slot>, rest: seq<Slot>)
    requires PoolInv(s) && Owns(s.place, OfConn(i), Idx(freed) + Idx(rest))
    ensures var now := GiveBack(s, freed);
      && Owns(now.place, InRing, now.ring) && Owns(now.place, OfConn(i), Idx(rest))
      && forall j, l {:trigger Owns(now.place, OfConn(j), l)} | j != i && Owns(s.place, OfConn(j), l) :: Owns(now.place, OfConn(j), l)
  {
    var l := Idx(freed) + Idx(rest);
    assert l[..|freed|] == Idx(freed) && l[|freed|..] == Idx(rest);
    MoveFront(s.place, OfConn(i), InRing, l, s.ring, |freed|);
    forall j, lj | j != i && Owns(s.place, OfConn(j), lj)
      ensures Owns(GiveBack(s, freed).place, OfConn(j), lj)
    {
      MoveFrame(s.place, OfConn(i), InRing, l, |freed|, OfConn(j), lj);
    }
  }

  lemma ConsumePeerKeeps(mem: Memory, p: Peer, k: Cont, n: nat)
    requires PeerInv(p, In(k))
    ensures PeerInv(ConsumePeer(mem, p, n), In(k))
  {
    ConsumeShrinks(p.c.r.chain, n);
  }

  lemma ConsumePeerHolds(mem: Memory, p: Peer, n: nat)
    requires Fits(mem, Slots(p)) && p.e.wire == p.e.consumed + SlotBytes(mem, Slots(p))
    ensures var q := ConsumePeer(mem, p, n);
      Fits(mem, Slots(q)) && q.e.wire == q.e.consumed + SlotBytes(mem, Slots(q))
  {
    var chain, tail := p.c.r.chain, CqeSlots(p.e.rx.cqes);
    FitsConcat(mem, chain, tail);
    FitsConcat(mem, Consume(chain, n).0, tail);
    ConsumeFits(mem, chain, n);
    ConsumeStream(mem, chain, tail, n, p.e.consumed);
  }

  lemma SplitAt(a: seq<byte>, b: seq<byte>, c: seq<byte>, n: nat)
    requires n <= |b|
    ensures a + (b + c) == a + b[..n] + (b[n..] + c)
  {
    assert b == b[..n] + b[n..];
  }

  lemma ConsumeStream(mem: Memory, chain: seq<Slot>, tail: seq<Slot>, n: nat, consumed: seq<byte>)
    requires Fits(mem, chain)
    ensures var bytes := SlotBytes(mem, chain);
      consumed + SlotBytes(mem, chain + tail) ==
      consumed + bytes[..Min(n, |bytes|)] + SlotBytes(mem, Consume(chain, n).0 + tail)
  {
    var bytes := SlotBytes(mem, chain);
    ConsumeDropsBytes(mem, chain, n);
    SlotBytesConcat(mem, chain, tail);
    SlotBytesConcat(mem, Consume(chain, n).0, tail);
    SplitAt(consumed, bytes, SlotBytes(mem, tail), Min(n, |bytes|));
  }

  lemma ConsumePeerIdx(mem: Memory, p: Peer, n: nat)
    ensures Idx(Slots(p)) == Idx(Consume(p.c.r.chain, n).1) + Idx(Slots(ConsumePeer(mem, p, n)))
  {
    var chain, tail := p.c.r.chain, CqeSlots(p.e.rx.cqes);
    ConsumeSplits(chain, n);
    IdxConcat(chain, tail);
    IdxConcat(Consume(chain, n).0, tail);
  }

  lemma ReadKeeps(s: State, n: nat)
    requires Inv(s) && Running(s)
    ensures Inv(Do(s, Read(n)))
  {
    var i := s.focus.i;
    var p, now := s.conns[i], Do(s, Read(n));
    assert Well(s, i);
    ConsumePeerKeeps(s.mem, p, s.focus.m.k, n);
    ConsumePeerHolds(s.mem, p, n);
    ConsumePeerIdx(s.mem, p, n);
    GiveBackKeeps(s, i, Consume(p.c.r.chain, n).1, Slots(now.conns[i]));
    assert Well(now, i);
    forall j | j in now.conns && j != i ensures Well(now, j) {
      assert Well(s, j);
      SameWell(s, now, j);
    }
  }

  /** Nothing is unreaped for a connection without references. */
  lemma UnreferencedSlots(p: Peer)
    requires PeerInv(p, Idle) && Unreferenced(p)
    ensures Slots(p) == p.c.r.chain && Idx(Slots(p)) == Idx(p.c.r.chain) + Idx([])
  {
    assert p.e.rx.cqes == [];
    assert Slots(p) == p.c.r.chain;
  }

  lemma FreeKeeps(s: State, i: nat)
    requires Inv(s) && s.focus == Nobody && i in s.conns && Unreferenced(s.conns[i])
    ensures Inv(Do(s, Free(i)))
  {
    var p, now := s.conns[i], Do(s, Free(i));
    assert Well(s, i);
    UnreferencedSlots(p);
    GiveBackKeeps(s, i, p.c.r.chain, []);
    assert Idx([]) == [];
    forall j | j in now.conns ensures Well(now, j) {
      assert Well(s, j);
      SameWell(s, now, j);
    }
    forall j | j !in now.conns ensures Owns(now.place, OfConn(j), []) {
      assert j == i || Owns(s.place, OfConn(j), []);
    }
  }

  // ----- Chunks filled by the kernel -----------------------------------------

  /** Filling a chunk that is in the ring changes nothing that a connection holds. */
  lemma OthersUntouched(mem: Memory, now: Memory, place: seq<Place>, j: nat, p: Peer, idx: nat)
    requires idx < |mem| && |mem| == |now| == |place| && place[idx] == InRing
    requires forall k :: 0 <= k < |mem| && k != idx ==> now[k] == mem[k]
    requires |now[idx]| == |mem[idx]|
    requires Holding(mem, place, j, p)
    ensures Fits(now, Slots(p)) && SlotBytes(now, Slots(p)) == SlotBytes(mem, Slots(p))
  {
    forall k | 0 <= k < |Slots(p)| ensures Slots(p)[k].idx != idx {
      assert Idx(Slots(p))[k] in Idx(Slots(p));
    }
    WriteElsewhere(mem, now, Slots(p));
  }

  /** The chunk at the front of the ring joins the list of the receiving connection. */
  lemma DeliverOwns(place: seq<Place>, ring: seq<nat>, i: nat, l: seq<nat>)
    requires ring != [] && Owns(place, InRing, ring) && Owns(place, OfConn(i), l)
    ensures var now := Reassign(place, [ring[0]], OfConn(i));
      Owns(now, InRing, ring[1..]) && Owns(now, OfConn(i), l + [ring[0]])
  {
    assert ring[..1] == [ring[0]];
    MoveFront(place, InRing, OfConn(i), ring, l, 1);
  }

  /** The bytes of a list grow by those of a chunk filled from its start. */
  lemma FilledBytes(mem: Memory, slots: seq<Slot>, idx: nat, payload: seq<byte>)
    requires Fits(mem, slots) && idx < |mem| && payload <= mem[idx]
    ensures Fits(mem, slots + [Slot(idx, 0, |payload|)])
    ensures SlotBytes(mem, slots + [Slot(idx, 0, |payload|)]) == SlotBytes(mem, slots) + payload
  {
    var slot := Slot(idx, 0, |payload|);
    FitsConcat(mem, slots, [slot]);
    SlotBytesConcat(mem, slots, [slot]);
    assert SlotBytes(mem, [slot]) == SlotData(mem, slot) == payload;
  }

  lemma Joined(a: seq<byte>, b: seq<byte>, c: seq<byte>)
    ensures (a + b) + c == a + (b + c)
  {
  }

  /** The list of the receiving connection grows by the chunk at the front of the ring. */
  lemma DeliverHolds(s: State, now: State, i: nat, p: Peer, payload: seq<byte>, more: bool)
    requires PoolInv(s) && s.ring != [] && s.ring[0] < |s.mem| && 0 < |payload| <= |s.mem[s.ring[0]]|
    requires now.mem == s.mem[s.ring[0] := payload + s.mem[s.ring[0]][|payload|..]]
    requires now.place == Reassign(s.place, [s.ring[0]], OfConn(i)) && now.ring == s.ring[1..]
    requires Holding(s.mem, s.place, i, p)
    ensures Holding(now.mem, now.place, i, KernelData(p, s.ring[0], payload, more))
    ensures Owns(now.place, InRing, now.ring)
  {
    var idx, slots := s.ring[0], Slots(p);
    assert idx in s.ring;
    OthersUntouched(s.mem, now.mem, s.place, i, p, idx);
    KernelDataSlots(p, idx, payload, more);
    DeliverOwns(s.place, s.ring, i, Idx(slots));
    IdxConcat(slots, [Slot(idx, 0, |payload|)]);
    FilledBytes(now.mem, slots, idx, payload);
    assert Idx([Slot(idx, 0, |payload|)]) == [idx];
    Joined(p.e.consumed, SlotBytes(now.mem, slots), payload);
  }

  /** Other connections hold what they held. */
  lemma DeliverFrame(mem: Memory, now: Memory, place: seq<Place>, ring: seq<nat>, i: nat, j: nat, p: Peer)
    requires ring != [] && Owns(place, InRing, ring) && |mem| == |now| == |place| && ring[0] < |mem|
    requires |now[ring[0]]| == |mem[ring[0]]| && forall k :: 0 <= k < |mem| && k != ring[0] ==> now[k] == mem[k]
    requires j != i && Holding(mem, place, j, p)
    ensures Holding(now, Reassign(place, [ring[0]], OfConn(i)), j, p)
  {
    assert ring[..1] == [ring[0]] && ring[0] in ring;
    OthersUntouched(mem, now, place, j, p, ring[0]);
    MoveFrame(place, InRing, OfConn(i), ring, 1, OfConn(j), Idx(Slots(p)));
  }

  lemma DataKeeps(s: State, i: nat, payload: seq<byte>, more: bool)
    requires Inv(s) && i in s.conns && s.conns[i].e.rx.recv == RecvArmed
    requires s.ring != [] && s.ring[0] < |s.mem| && 0 < |payload| <= |s.mem[s.ring[0]]|
    ensures Inv(Deliver(s, i, payload, more))
  {
    var p, now := s.conns[i], Deliver(s, i, payload, more);
    assert Well(s, i);
    KernelDataKeeps(p, ModeOf(s, i), s.ring[0], payload, more);
    DeliverHolds(s, now, i, p, payload, more);
    assert Well(now, i);
    forall j | j in now.conns && j != i ensures Well(now, j) {
      assert Well(s, j);
      DeliverFrame(s.mem, now.mem, s.place, s.ring, i, j, s.conns[j]);
      SameWell(s, now, j);
    }
    forall j | j !in now.conns ensures Owns(now.place, OfConn(j), []) {
      assert Owns(s.place, OfConn(j), []);
      assert s.ring[..1] == [s.ring[0]];
      MoveFrame(s.place, InRing, OfConn(i), s.ring, 1, OfConn(j), []);
    }
  }

  // ----- Every step, every run -----------------------------------------------

  lemma LoopStepKeeps(s: State, a: Action)
    requires Inv(s) && Possible(s, a) && (a.Start? || a.ReapReadOf? || a.ReapWriteOf? || a.Closed? || a.Proceed?)
    ensures Inv(Do(s, a))
  {
    assert Well(s, if a.Proceed? then s.focus.i else a.i);
    match a
    case Start(i) => EstablishKeeps(s.conns[i]); PutKeeps(s, i, Establish(s.conns[i]));
    case ReapReadOf(i) => ReapReadKeeps(s.conns[i]); PutKeeps(s, i, ReapRead(s.conns[i]));
    case ReapWriteOf(i) => ReapWriteKeeps(s.conns[i]); PutKeeps(s, i, ReapWrite(s.conns[i]));
    case Closed(i) => DestroyKeeps(s.conns[i]); PutKeeps(s, i, Destroy(s.conns[i]));
    case Proceed =>
      ContinueKeeps(s.conns[s.focus.i], s.focus.m.k);
      PutKeeps(s, s.focus.i, Continue(s.conns[s.focus.i], s.focus.m.k));
  }

  lemma CoStepKeeps(s: State, a: Action)
    requires Inv(s) && Possible(s, a) && Obliges(s, a) && (a.Recv? || a.Send? || a.Finish?)
    ensures Inv(Do(s, a))
  {
    var p, k := s.conns[s.focus.i], s.focus.m.k;
    assert Well(s, s.focus.i);
    match a
    case Recv => CoRecvKeeps(p, k); PutKeeps(s, s.focus.i, CoRecv(p, k));
    case Send(data) => CoSendKeeps(p, k, data); PutKeeps(s, s.focus.i, CoSend(p, k, data));
    case Finish => CoFinishKeeps(p, k); PutKeeps(s, s.focus.i, CoFinish(p, k));
  }

  lemma IssueReadStep(s: State, i: nat)
    requires Inv(s) && i in s.conns && s.conns[i].e.rx.recv == RecvAsked
    ensures Inv(Patch(s, i, Peers.IssueRead(s.conns[i])))
  {
    assert Well(s, i);
    IssueReadKeeps(s.conns[i], ModeOf(s, i));
    PatchKeeps(s, i, Peers.IssueRead(s.conns[i]));
  }

  lemma IssueWriteStep(s: State, i: nat)
    requires Inv(s) && i in s.conns && s.conns[i].e.tx.wr == WriteAsked
    ensures Inv(Patch(s, i, Peers.IssueWrite(s.conns[i])))
  {
    assert Well(s, i);
    IssueWriteKeeps(s.conns[i], ModeOf(s, i));
    PatchKeeps(s, i, Peers.IssueWrite(s.conns[i]));
  }

  lemma EndStep(s: State, i: nat, res: int)
    requires Inv(s) && i in s.conns && s.conns[i].e.rx.recv == RecvArmed && res <= 0
    ensures Inv(Patch(s, i, KernelEnd(s.conns[i], res)))
  {
    assert Well(s, i);
    KernelEndKeeps(s.conns[i], ModeOf(s, i), res);
    PatchKeeps(s, i, KernelEnd(s.conns[i], res));
  }

  lemma WroteStep(s: State, i: nat, res: int)
    requires Inv(s) && i in s.conns && s.conns[i].e.tx.wr == WriteArmed
    requires res <= |Flatten(s.conns[i].c.w.batch)| && (res >= 0 || WriteFatal(res))
    ensures Inv(Patch(s, i, KernelWrite(s.conns[i], res)))
  {
    assert Well(s, i);
    KernelWriteKeeps(s.conns[i], ModeOf(s, i), res);
    PatchKeeps(s, i, KernelWrite(s.conns[i], res));
  }

  lemma StepKeeps(s: State, a: Action)
    requires Inv(s) && Obliges(s, a)
    ensures Inv(Step(s, a))
  {
    if Possible(s, a) {
      match a
      case Accept(i, cfg) => AcceptKeeps(s, i, cfg);
      case Free(i) => FreeKeeps(s, i);
      case Read(n) => ReadKeeps(s, n);
      case Data(i, payload, more) => DataKeeps(s, i, payload, more);
      case Start(_) => LoopStepKeeps(s, a);
      case ReapReadOf(_) => LoopStepKeeps(s, a);
      case ReapWriteOf(_) => LoopStepKeeps(s, a);
      case Closed(_) => LoopStepKeeps(s, a);
      case Proceed => LoopStepKeeps(s, a);
      case Recv => CoStepKeeps(s, a);
      case Send(_) => CoStepKeeps(s, a);
      case Finish => CoStepKeeps(s, a);
      case IssueRead(i) => IssueReadStep(s, i);
      case IssueWrite(i) => IssueWriteStep(s, i);
      case End(i, res) => EndStep(s, i, res);
      case Wrote(i, res) => WroteStep(s, i, res);
    }
  }

  /** The invariant holds in every state of every run. */
  lemma {:induction false} RunKeeps(s: State, acts: seq<Action>)
    requires Inv(s) && Assumed(s, acts)
    ensures Inv(Exec(s, acts))
    decreases |acts|
  {
    if acts != [] {
      StepKeeps(s, acts[0]);
      RunKeeps(Step(s, acts[0]), acts[1..]);
    }
  }
}
