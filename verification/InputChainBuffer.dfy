/** The input buffer of a connection (`InputChainBuffer`): a list threaded through the
    chunk array that all buffers share.  Pointers are positions in that array. */
module InputBuffers {
  import opened Bytes
  import opened Pointers
  import opened Connections
  import opened Chains
  import opened Ownership
  import opened ChunkPools

  // ----- Lists through the chunk array -----------------------------------------

  /** In order and acyclic, every offset in place. */
  ghost predicate Threaded(chunks: seq<Chunk>, spine: seq<nat>) {
    && NoDup(spine)
    && forall j: nat {:trigger ThreadedAt(chunks, spine, j)} :: j < |spine| ==> ThreadedAt(chunks, spine, j)
  }

  ghost predicate ThreadedAt(chunks: seq<Chunk>, spine: seq<nat>, j: nat)
    requires j < |spine|
  {
    && spine[j] < |chunks|
    && chunks[spine[j]].head <= chunks[spine[j]].tail <= |chunks[spine[j]].data|
    && chunks[spine[j]].next == (if j + 1 < |spine| then At(spine[j + 1]) else Null)
  }

  /** The spine lists exactly the chunks whose home is this buffer. */
  ghost predicate Lists(home: seq<Home>, who: object, spine: seq<nat>) {
    forall k: nat {:trigger ListAt(home, who, spine, k)} :: ListAt(home, who, spine, k)
  }

  ghost predicate ListAt(home: seq<Home>, who: object, spine: seq<nat>, k: nat) {
    k in spine <==> k < |home| && home[k] == Chained(who)
  }

  ghost function SlotAt(chunks: seq<Chunk>, k: nat): Slot {
    if k < |chunks| then Slot(k, chunks[k].head, chunks[k].tail) else Slot(k, 0, 0)
  }

  ghost function SlotsOf(chunks: seq<Chunk>, spine: seq<nat>): (r: seq<Slot>)
    ensures |r| == |spine|
    ensures forall j :: 0 <= j < |spine| ==> r[j] == SlotAt(chunks, spine[j])
  {
    seq(|spine|, j requires 0 <= j < |spine| => SlotAt(chunks, spine[j]))
  }

  ghost function MemoryOf(chunks: seq<Chunk>): (r: Memory)
    ensures |r| == |chunks| && forall k :: 0 <= k < |chunks| ==> r[k] == chunks[k].data
  {
    seq(|chunks|, k requires 0 <= k < |chunks| => chunks[k].data)
  }

  lemma ThreadedFits(chunks: seq<Chunk>, spine: seq<nat>)
    requires Threaded(chunks, spine)
    ensures Fits(MemoryOf(chunks), SlotsOf(chunks, spine))
  {
    forall j: nat | j < |spine|
      ensures var s := SlotsOf(chunks, spine)[j]; s.idx < |chunks| && s.head <= s.tail <= |MemoryOf(chunks)[s.idx]|
    {
      assert ThreadedAt(chunks, spine, j);
    }
  }

  /** The chunk array after `k` has been linked behind `tail`. */
  ghost function LinkedBehind(chunks: seq<Chunk>, tail: Ptr, k: nat): (r: seq<Chunk>)
    requires tail.At? ==> tail.addr < |chunks|
    ensures |r| == |chunks|
  {
    if tail.Null? then chunks else chunks[tail.addr := chunks[tail.addr].(next := At(k))]
  }

  /** ... and filled with `len` bytes. */
  ghost function WithAppended(chunks: seq<Chunk>, spine: seq<nat>, k: nat, len: nat): (r: seq<Chunk>)
    requires k < |chunks| && (spine != [] ==> spine[|spine| - 1] < |chunks|)
    ensures |r| == |chunks|
  {
    var linked := LinkedBehind(chunks, if spine == [] then Null else At(spine[|spine| - 1]), k);
    linked[k := linked[k].(tail := linked[k].tail + len)]
  }

  lemma LastThreaded(chunks: seq<Chunk>, spine: seq<nat>)
    requires Threaded(chunks, spine) && spine != []
    ensures spine[0] < |chunks| && spine[|spine| - 1] < |chunks|
  {
    assert ThreadedAt(chunks, spine, 0) && ThreadedAt(chunks, spine, |spine| - 1);
  }

  lemma ThreadAppend(chunks: seq<Chunk>, now: seq<Chunk>, spine: seq<nat>, k: nat, len: nat)
    requires Threaded(chunks, spine) && k < |chunks| && k !in spine && len <= |chunks[k].data|
    requires chunks[k] == chunks[k].Reset() && (spine != [] ==> spine[|spine| - 1] < |chunks|)
    requires now == WithAppended(chunks, spine, k, len)
    ensures Threaded(now, spine + [k]) && SlotsOf(now, spine + [k]) == SlotsOf(chunks, spine) + [Slot(k, 0, len)]
  {
    var s := spine + [k];
    NoDupConcat(spine, [k]);
    forall j: nat | j < |s| ensures ThreadedAt(now, s, j) && (j < |spine| ==> SlotAt(now, s[j]) == SlotAt(chunks, spine[j])) {
      if j < |spine| {
        assert ThreadedAt(chunks, spine, j) && spine[j] in spine;
        if j < |spine| - 1 { Apart(spine, j, |spine| - 1); }
      }
    }
  }

  /** The pool's and the buffer's books after the append. */
  lemma BooksAppend(chunks: seq<Chunk>, now: seq<Chunk>, home: seq<Home>, there: seq<Home>, size: nat, fifo: seq<nat>, who: object, spine: seq<nat>, k: nat, len: nat)
    requires Stocked(chunks, home, size) && RingLists(home, fifo) && Lists(home, who, spine)
    requires k < |home| && home[k] == Taken && (spine != [] ==> spine[|spine| - 1] < |chunks|)
    requires now == WithAppended(chunks, spine, k, len) && there == home[k := Chained(who)]
    ensures Stocked(now, there, size) && RingLists(there, fifo) && Lists(there, who, spine + [k])
    ensures MemoryOf(now) == MemoryOf(chunks) && Untouched(chunks, home, now, there, who)
  {
    RingElsewhere(home, fifo, k, Chained(who));
    var more := spine + [k];
    forall x: nat ensures ListAt(there, who, more, x) { assert ListAt(home, who, spine, x); }
    if spine != [] { assert spine[|spine| - 1] in spine; assert ListAt(home, who, spine, spine[|spine| - 1]); }
    forall j: nat | j < |chunks| ensures StockedAt(now, there, size, j) && now[j].data == chunks[j].data {
      assert StockedAt(chunks, home, size, j);
    }
    forall j: nat | j < |chunks| ensures UntouchedAt(chunks, home, now, there, who, j) { }
  }

  /** The first chunk leaves and is reset. */
  lemma ThreadPop(chunks: seq<Chunk>, now: seq<Chunk>, spine: seq<nat>, h: nat)
    requires Threaded(chunks, spine) && spine != [] && h == spine[0] && h < |chunks|
    requires now == chunks[h := chunks[h].Reset()]
    ensures Threaded(now, spine[1..]) && SlotsOf(now, spine[1..]) == SlotsOf(chunks, spine)[1..]
  {
    var s := spine[1..];
    NoDupDrop(spine, 1);
    forall j: nat | j < |s| ensures ThreadedAt(now, s, j) && SlotAt(now, s[j]) == SlotAt(chunks, spine[j + 1]) {
      Apart(spine, 0, j + 1);
      assert ThreadedAt(chunks, spine, j + 1);
    }
  }

  lemma ListsPop(home: seq<Home>, who: object, spine: seq<nat>)
    requires Lists(home, who, spine) && NoDup(spine) && spine != []
    ensures spine[0] < |home| && home[spine[0]] == Chained(who)
    ensures Lists(home[spine[0] := Published], who, spine[1..])
  {
    var h := spine[0];
    assert ListAt(home, who, spine, h);
    assert spine == [h] + spine[1..] && spine[..1] == [h];
    InPrefix(spine, 1, h);
    var there, less := home[h := Published], spine[1..];
    forall x: nat ensures ListAt(there, who, less, x) { assert ListAt(home, who, spine, x); }
  }

  /** The read offset of the first chunk moves. */
  lemma ThreadCut(chunks: seq<Chunk>, now: seq<Chunk>, spine: seq<nat>, h: nat, n: nat)
    requires Threaded(chunks, spine) && spine != [] && h == spine[0] && h < |chunks| && n <= chunks[h].ReadableBytes()
    requires now == chunks[h := chunks[h].(head := chunks[h].head + n)]
    ensures Threaded(now, spine)
    ensures var v := SlotsOf(chunks, spine); SlotsOf(now, spine) == v[0 := v[0].(head := v[0].head + n)]
  {
    assert ThreadedAt(chunks, spine, 0);
    forall j: nat | j < |spine| ensures ThreadedAt(now, spine, j) && (j > 0 ==> now[spine[j]] == chunks[spine[j]]) {
      assert ThreadedAt(chunks, spine, j);
      if j > 0 { Apart(spine, 0, j); }
    }
    var v, w := SlotsOf(chunks, spine), SlotsOf(now, spine);
    assert w[0] == v[0].(head := v[0].head + n);
    assert forall j :: 0 < j < |spine| ==> w[j] == v[j];
  }

  /** The chunks of other buffers are where they were and as they were. */
  ghost predicate Untouched(chunks: seq<Chunk>, home: seq<Home>, now: seq<Chunk>, there: seq<Home>, who: object) {
    && |now| == |chunks| == |home| == |there|
    && forall k: nat {:trigger UntouchedAt(chunks, home, now, there, who, k)} ::
         k < |chunks| ==> UntouchedAt(chunks, home, now, there, who, k)
  }

  ghost predicate UntouchedAt(chunks: seq<Chunk>, home: seq<Home>, now: seq<Chunk>, there: seq<Home>, who: object, k: nat)
    requires k < |now| == |chunks| == |home| == |there|
  {
    (home[k].Chained? && home[k].owner != who) || (there[k].Chained? && there[k].owner != who) ==>
      there[k] == home[k] && now[k] == chunks[k]
  }

  lemma UntouchedThen(a: seq<Chunk>, ha: seq<Home>, b: seq<Chunk>, hb: seq<Home>, c: seq<Chunk>, hc: seq<Home>, who: object)
    requires Untouched(a, ha, b, hb, who) && Untouched(b, hb, c, hc, who)
    ensures Untouched(a, ha, c, hc, who)
  {
    forall k: nat | k < |a| ensures UntouchedAt(a, ha, c, hc, who, k) {
      assert UntouchedAt(a, ha, b, hb, who, k) && UntouchedAt(b, hb, c, hc, who, k);
    }
  }

  lemma SameUntouched(a: seq<Chunk>, ha: seq<Home>, who: object)
    requires |a| == |ha|
    ensures Untouched(a, ha, a, ha, who)
  {
    forall k: nat | k < |a| ensures UntouchedAt(a, ha, a, ha, who, k) { }
  }

  /** A change at `h` only, which was not another buffer's. */
  lemma UntouchedBut(a: seq<Chunk>, ha: seq<Home>, b: seq<Chunk>, hb: seq<Home>, who: object, h: nat, c: Chunk, to: Home)
    requires h < |a| == |ha| && b == a[h := c] && hb == ha[h := to] && (ha[h].Chained? ==> ha[h].owner == who) && (to.Chained? ==> to.owner == who)
    ensures Untouched(a, ha, b, hb, who)
  {
    forall k: nat | k < |a| ensures UntouchedAt(a, ha, b, hb, who, k) { }
  }

  // ----- Consuming ---------------------------------------------------------------

  ghost function Upto(bytes: seq<byte>, n: nat): seq<byte> { bytes[..Min(n, |bytes|)] }

  lemma FrontOf(data: seq<byte>, h: nat, t: nat, n: nat)
    requires h <= t <= |data|
    ensures data[h..h + Min(t - h, n)] == Upto(data[h..t], n)
  {
  }

  /** Consuming `want` more bytes of `v` leads to chain `rest`, to `fifo` in the ring and to
      `goal` as the bytes handed out. */
  ghost predicate Owing(mem: Memory, v: seq<Slot>, want: nat, ring: seq<nat>, out: seq<byte>,
                        rest: seq<Slot>, fifo: seq<nat>, goal: seq<byte>) {
    && Consume(v, want).0 == rest
    && ring + Idx(Consume(v, want).1) == fifo
    && out + Upto(SlotBytes(mem, v), want) == goal
  }

  /** The chain after up to `want` bytes of its first chunk were read. */
  ghost function HeadEaten(v: seq<Slot>, want: nat): seq<Slot>
    requires v != []
  {
    if Readable(v[0]) <= want then v[1..] else v[0 := v[0].(head := v[0].head + want)]
  }

  /** The chunk that goes back then, if any. */
  ghost function Returned(v: seq<Slot>, want: nat): seq<nat>
    requires v != []
  {
    if Readable(v[0]) <= want then [v[0].idx] else []
  }

  /** Moving the offset by `n` and dropping the chunk if that exhausts it. */
  lemma HeadTurn(v: seq<Slot>, n: nat, want: nat)
    requires v != [] && v[0].head <= v[0].tail && n == Min(Readable(v[0]), want)
    ensures var w := v[0 := v[0].(head := v[0].head + n)];
      if w[0].head == w[0].tail then w[1..] == HeadEaten(v, want) && Returned(v, want) == [v[0].idx]
      else w == HeadEaten(v, want) && Returned(v, want) == []
  {
  }

  /** A whole chunk is consumed. */
  lemma OwingChunk(mem: Memory, v: seq<Slot>, want: nat, ring: seq<nat>, out: seq<byte>,
                   rest: seq<Slot>, fifo: seq<nat>, goal: seq<byte>)
    requires v != [] && Fits(mem, v) && 0 < want && Readable(v[0]) <= want
    requires Owing(mem, v, want, ring, out, rest, fifo, goal)
    ensures Owing(mem, v[1..], want - Readable(v[0]), ring + [v[0].idx], out + Upto(SlotData(mem, v[0]), want), rest, fifo, goal)
    ensures |Upto(SlotData(mem, v[0]), want)| == Readable(v[0])
  {
    var less := Consume(v[1..], want - Readable(v[0])).1;
    IdxConcat([v[0]], less);
    assert Idx([v[0]]) == [v[0].idx];
    assert ring + ([v[0].idx] + Idx(less)) == (ring + [v[0].idx]) + Idx(less);
    SomeOf(SlotData(mem, v[0]), SlotBytes(mem, v[1..]), want, out);
  }

  lemma SomeOf(a: seq<byte>, b: seq<byte>, n: nat, out: seq<byte>)
    requires |a| <= n
    ensures out + Upto(a + b, n) == (out + Upto(a, n)) + Upto(b, n - |a|)
  {
    assert Upto(a, n) == a;
    assert Upto(a + b, n) == a + Upto(b, n - |a|);
  }

  /** Part of a chunk is consumed. */
  lemma OwingPart(mem: Memory, v: seq<Slot>, want: nat, ring: seq<nat>, out: seq<byte>,
                  rest: seq<Slot>, fifo: seq<nat>, goal: seq<byte>)
    requires v != [] && Fits(mem, v) && 0 < want < Readable(v[0])
    requires Owing(mem, v, want, ring, out, rest, fifo, goal)
    ensures Owing(mem, v[0 := v[0].(head := v[0].head + want)], 0, ring, out + Upto(SlotData(mem, v[0]), want), rest, fifo, goal)
    ensures |Upto(SlotData(mem, v[0]), want)| == want
  {
    assert v[0 := v[0].(head := v[0].head + want)] == [v[0].(head := v[0].head + want)] + v[1..];
    assert Upto(SlotBytes(mem, v), want) == Upto(SlotData(mem, v[0]), want);
  }

  /** Either way: one turn of the loop. */
  lemma OwingStep(chunks: seq<Chunk>, spine: seq<nat>, want: nat, ring: seq<nat>, out: seq<byte>,
                  rest: seq<Slot>, fifo: seq<nat>, goal: seq<byte>)
    requires Threaded(chunks, spine) && spine != [] && 0 < want
    requires Owing(MemoryOf(chunks), SlotsOf(chunks, spine), want, ring, out, rest, fifo, goal)
    ensures var mem, v := MemoryOf(chunks), SlotsOf(chunks, spine);
      var more := Upto(SlotData(mem, v[0]), want);
      && |more| == Min(Readable(v[0]), want)
      && Owing(mem, HeadEaten(v, want), want - |more|, ring + Returned(v, want), out + more, rest, fifo, goal)
      && (|HeadEaten(v, want)| < |v| || (|HeadEaten(v, want)| == |v| && 0 < |more|))
  {
    var mem, v := MemoryOf(chunks), SlotsOf(chunks, spine);
    ThreadedFits(chunks, spine);
    if Readable(v[0]) <= want { OwingChunk(mem, v, want, ring, out, rest, fifo, goal); }
    else { OwingPart(mem, v, want, ring, out, rest, fifo, goal); assert ring + [] == ring; }
  }

  lemma OwingNothing(mem: Memory, v: seq<Slot>, want: nat, ring: seq<nat>, out: seq<byte>,
                     rest: seq<Slot>, fifo: seq<nat>, goal: seq<byte>)
    requires Owing(mem, v, want, ring, out, rest, fifo, goal) && (want == 0 || v == [])
    ensures v == rest && ring == fifo && out == goal
  {
    assert Upto(SlotBytes(mem, v), want) == [];
    assert Idx([]) == [];
  }

  class InputChainBuffer {
    const pool: ChunkPool
    var head: Ptr
    var tail: Ptr
    var chunks: nat
    var totalLen: nat
    ghost var spine: seq<nat>

    ghost predicate Linked()
      reads this, pool, pool.ring
    {
      && pool.Valid()
      && Threaded(pool.chunks, spine) && Lists(pool.home, this, spine)
      && chunks == |spine|
      && head == (if spine == [] then Null else At(spine[0]))
      && tail == (if spine == [] then Null else At(spine[|spine| - 1]))
    }

    ghost predicate Valid()
      reads this, pool, pool.ring
    {
      Linked() && totalLen == ChainLen(View()) && Unread(View())
    }

    /** The chain as a value. */
    ghost function View(): seq<Slot>
      reads this, pool
    {
      SlotsOf(pool.chunks, spine)
    }

    ghost function Mem(): Memory
      reads pool
    {
      MemoryOf(pool.chunks)
    }

    constructor (pool: ChunkPool)
      requires pool.Valid()
      ensures this.pool == pool && Valid() && View() == []
    {
      this.pool := pool;
      head, tail := Null, Null;
      chunks, totalLen, spine := 0, 0, [];
    }

    /** Links the chunk, still without data. */
    method PushBack(index: nat)
      requires index < |pool.chunks| && (tail.At? ==> tail.addr < |pool.chunks|)
      modifies this`head, this`tail, this`chunks, pool`chunks
      ensures tail == At(index) && head == (if old(tail).Null? then At(index) else old(head)) && chunks == old(chunks) + 1
      ensures pool.chunks == LinkedBehind(old(pool.chunks), old(tail), index)
    {
      var newChunk := pool.GetChunkById(index);
      if tail.Null? {
        head, tail := newChunk, newChunk;
      } else {
        pool.chunks := pool.chunks[tail.addr := pool.chunks[tail.addr].(next := newChunk)];
        tail := pool.chunks[tail.addr].next;
      }
      chunks := chunks + 1;
    }

    /** The append but for the byte count. */
    method LinkFilled(index: nat, len: nat)
      requires Linked() && index < |pool.chunks| && pool.home[index] == Taken && len <= pool.chunkSize
      modifies this`head, this`tail, this`chunks, this`spine, pool`chunks, pool`home
      ensures Linked() && View() == old(View()) + [Slot(index, 0, len)]
      ensures pool.home == old(pool.home)[index := Chained(this)] && Mem() == old(Mem())
      ensures Untouched(old(pool.chunks), old(pool.home), pool.chunks, pool.home, this)
    {
      assert StockedAt(pool.chunks, pool.home, pool.chunkSize, index) && ListAt(pool.home, this, spine, index);
      if spine != [] { LastThreaded(pool.chunks, spine); }
      ghost var was, lived, line := pool.chunks, pool.home, spine;
      PushBack(index);
      var filled := pool.chunks[tail.addr].(tail := pool.chunks[tail.addr].tail + len);
      pool.chunks := pool.chunks[tail.addr := filled];
      spine := spine + [index];
      pool.home := pool.home[index := Chained(this)];
      ThreadAppend(was, pool.chunks, line, index, len);
      BooksAppend(was, pool.chunks, lived, pool.home, pool.chunkSize, pool.ring.fifo, this, line, index, len);
    }

    /** A completion's chunk goes to the end of the chain. */
    method Append(index: nat, len: nat)
      requires Valid() && index < |pool.chunks| && pool.home[index] == Taken && 0 < len <= pool.chunkSize
      modifies this, pool`chunks, pool`home
      ensures Valid() && View() == old(View()) + [Slot(index, 0, len)]
      ensures pool.home == old(pool.home)[index := Chained(this)] && Mem() == old(Mem())
      ensures Untouched(old(pool.chunks), old(pool.home), pool.chunks, pool.home, this)
    {
      ChainLenSnoc(View(), Slot(index, 0, len));
      LinkFilled(index, len);
      totalLen := totalLen + len;
    }

    /** Unlinks the first chunk and gives it back; false if there is none. */
    method PopFront() returns (popped: bool)
      requires Linked()
      modifies this`head, this`tail, this`chunks, this`spine, pool, pool.ring
      ensures Linked() && Mem() == old(Mem()) && (popped <==> old(spine) != [])
      ensures if popped then
                && View() == old(View())[1..] && spine == old(spine)[1..]
                && pool.ring.fifo == old(pool.ring.fifo) + [old(spine)[0]]
              else View() == [] && spine == [] && pool.ring.fifo == old(pool.ring.fifo)
      ensures Untouched(old(pool.chunks), old(pool.home), pool.chunks, pool.home, this)
    {
      if chunks == 0 {
        SameUntouched(pool.chunks, pool.home, this);
        return false;
      }
      UnlinkFront();
      return true;
    }

    /** The case of a chain with a chunk. */
    method UnlinkFront()
      requires Linked() && spine != []
      modifies this`head, this`tail, this`chunks, this`spine, pool, pool.ring
      ensures Linked() && View() == old(View())[1..] && Mem() == old(Mem())
      ensures pool.ring.fifo == old(pool.ring.fifo) + [old(spine)[0]] && spine == old(spine)[1..]
      ensures Untouched(old(pool.chunks), old(pool.home), pool.chunks, pool.home, this)
    {
      assert ThreadedAt(pool.chunks, spine, 0);
      ListsPop(pool.home, this, spine);
      ghost var was, lived := pool.chunks, pool.home;
      var ret := head.addr;
      if chunks == 1 { assert |spine| == 1; } else { Apart(spine, 0, |spine| - 1); }
      if head == tail {
        head, tail := Null, Null;
      } else {
        head := pool.chunks[head.addr].next;
      }
      pool.ReturnOneChunk(ret);
      ThreadPop(was, pool.chunks, spine, ret);
      UntouchedBut(was, lived, pool.chunks, pool.home, this, ret, was[ret].Reset(), Published);
      chunks := chunks - 1;
      spine := spine[1..];
    }

    /** Moves the read offset of the first chunk. */
    method SkipInHead(n: nat)
      requires Linked() && spine != [] && n <= Readable(View()[0])
      modifies pool`chunks
      ensures Linked() && Mem() == old(Mem())
      ensures View() == (var v := old(View()); v[0 := v[0].(head := v[0].head + n)])
      ensures Untouched(old(pool.chunks), pool.home, pool.chunks, pool.home, this)
    {
      var h := head.addr;
      assert ThreadedAt(pool.chunks, spine, 0) && h in spine;
      assert ListAt(pool.home, this, spine, h) && StockedAt(pool.chunks, pool.home, pool.chunkSize, h);
      ghost var was := pool.chunks;
      var c := pool.chunks[h].(head := pool.chunks[h].head + n);
      StockedUpdate(was, pool.home, pool.chunkSize, h, c, pool.home[h]);
      assert pool.home[h := pool.home[h]] == pool.home;
      pool.chunks := pool.chunks[h := c];
      ThreadCut(was, pool.chunks, spine, h, n);
      UntouchedBut(was, pool.home, pool.chunks, pool.home, this, h, c, pool.home[h]);
    }

    /** One turn of the loop below: up to `want` bytes from the first chunk, which goes back
        to the pool when it is exhausted. */
    method TakeFromHead(want: nat) returns (bytes: seq<byte>)
      requires Linked() && spine != []
      modifies this`head, this`tail, this`chunks, this`spine, pool, pool.ring
      ensures Linked() && Mem() == old(Mem())
      ensures Untouched(old(pool.chunks), old(pool.home), pool.chunks, pool.home, this)
      ensures var s := old(View())[0];
        && bytes == Upto(SlotData(Mem(), s), want)
        && View() == HeadEaten(old(View()), want)
        && pool.ring.fifo == old(pool.ring.fifo) + Returned(old(View()), want)
    {
      assert ThreadedAt(pool.chunks, spine, 0);
      ghost var v := View();
      var c := pool.chunks[head.addr];
      var n := Min(c.ReadableBytes(), want);
      bytes := c.data[c.head..c.head + n];
      assert SlotData(Mem(), v[0]) == c.data[c.head..c.tail];
      FrontOf(c.data, c.head, c.tail, want);
      HeadTurn(v, n, want);
      SkipInHead(n);
      assert ThreadedAt(pool.chunks, spine, 0);
      if pool.chunks[head.addr].ReadableBytes() == 0 {
        ghost var mid, there := pool.chunks, pool.home;
        var popped := PopFront();
        UntouchedThen(old(pool.chunks), old(pool.home), mid, there, pool.chunks, pool.home, this);
      } else {
        assert pool.ring.fifo + [] == pool.ring.fifo;
      }
    }

    /** The body of the loop, against what is still to come. */
    method EatOnce(want: nat, out: seq<byte>, ghost rest: seq<Slot>, ghost fifo: seq<nat>, ghost goal: seq<byte>)
      returns (now: seq<byte>)
      requires Linked() && spine != [] && 0 < want
      requires Owing(Mem(), View(), want, pool.ring.fifo, out, rest, fifo, goal)
      modifies this`head, this`tail, this`chunks, this`spine, pool, pool.ring
      ensures Linked() && Mem() == old(Mem())
      ensures Untouched(old(pool.chunks), old(pool.home), pool.chunks, pool.home, this)
      ensures |out| <= |now| <= |out| + want
      ensures Owing(Mem(), View(), want - (|now| - |out|), pool.ring.fifo, now, rest, fifo, goal)
      ensures |spine| < |old(spine)| || (|spine| == |old(spine)| && |out| < |now|)
    {
      OwingStep(pool.chunks, spine, want, pool.ring.fifo, out, rest, fifo, goal);
      var more := TakeFromHead(want);
      now := out + more;
    }

    /** The loop of `remove` and `retrieve`: consumes `len` bytes, or all there are. */
    method Eat(len: nat) returns (out: seq<byte>)
      requires Linked()
      modifies this`head, this`tail, this`chunks, this`spine, pool, pool.ring
      ensures Linked() && Mem() == old(Mem())
      ensures Untouched(old(pool.chunks), old(pool.home), pool.chunks, pool.home, this)
      ensures View() == Consume(old(View()), len).0 && out == Upto(SlotBytes(Mem(), old(View())), len)
      ensures pool.ring.fifo == old(pool.ring.fifo) + Idx(Consume(old(View()), len).1)
    {
      ghost var rest, fifo := Consume(View(), len).0, pool.ring.fifo + Idx(Consume(View(), len).1);
      ghost var goal := Upto(SlotBytes(Mem(), View()), len);
      SameUntouched(pool.chunks, pool.home, this);
      out := [];
      while |out| < len && head.At?
        invariant Linked() && Mem() == old(Mem()) && |out| <= len
        invariant Untouched(old(pool.chunks), old(pool.home), pool.chunks, pool.home, this)
        invariant Owing(Mem(), View(), len - |out|, pool.ring.fifo, out, rest, fifo, goal)
        decreases |spine|, len - |out|
      {
        ghost var mid, there := pool.chunks, pool.home;
        out := EatOnce(len - |out|, out, rest, fifo, goal);
        UntouchedThen(old(pool.chunks), old(pool.home), mid, there, pool.chunks, pool.home, this);
      }
      OwingNothing(Mem(), View(), len - |out|, pool.ring.fifo, out, rest, fifo, goal);
    }

    /** `remove`, and `removeAsString`: the bytes handed out are the first of the stream. */
    method Remove(len: nat) returns (out: seq<byte>)
      requires Valid()
      modifies this, pool, pool.ring
      ensures Valid() && Mem() == old(Mem())
      ensures Untouched(old(pool.chunks), old(pool.home), pool.chunks, pool.home, this)
      ensures View() == Consume(old(View()), len).0
      ensures pool.ring.fifo == old(pool.ring.fifo) + Idx(Consume(old(View()), len).1)
      ensures |out| == Min(len, old(totalLen)) && out + SlotBytes(Mem(), View()) == SlotBytes(Mem(), old(View()))
    {
      Account(pool.chunks, spine, len);
      out := Eat(len);
      totalLen := totalLen - |out|;
    }

    method Retrieve(len: nat)
      requires Valid()
      modifies this, pool, pool.ring
      ensures Valid() && Mem() == old(Mem())
      ensures Untouched(old(pool.chunks), old(pool.home), pool.chunks, pool.home, this)
      ensures View() == Consume(old(View()), len).0
      ensures pool.ring.fifo == old(pool.ring.fifo) + Idx(Consume(old(View()), len).1)
    {
      Account(pool.chunks, spine, len);
      var skipped := Eat(len);
      totalLen := totalLen - |skipped|;
    }

    /** The unread bytes of the first chunk. */
    method Peek() returns (bytes: seq<byte>)
      requires Valid()
      ensures bytes <= SlotBytes(Mem(), View()) && (bytes == [] <==> totalLen == 0)
    {
      if head.Null? { return []; }
      assert ThreadedAt(pool.chunks, spine, 0);
      var c := pool.chunks[head.addr];
      bytes := c.data[c.head..c.tail];
    }

    /** The destructor gives every chunk back. */
    method Dispose()
      requires Linked()
      modifies this, pool, pool.ring
      ensures Linked() && spine == [] && Mem() == old(Mem())
      ensures Untouched(old(pool.chunks), old(pool.home), pool.chunks, pool.home, this)
      ensures pool.ring.fifo == old(pool.ring.fifo) + old(spine)
    {
      SameUntouched(pool.chunks, pool.home, this);
      while chunks != 0
        invariant Linked() && Mem() == old(Mem())
        invariant pool.ring.fifo + spine == old(pool.ring.fifo) + old(spine)
        invariant Untouched(old(pool.chunks), old(pool.home), pool.chunks, pool.home, this)
        decreases |spine|
      {
        ghost var mid, there := pool.chunks, pool.home;
        MoveOne(pool.ring.fifo, spine);
        var popped := PopFront();
        UntouchedThen(old(pool.chunks), old(pool.home), mid, there, pool.chunks, pool.home, this);
      }
    }
  }

  lemma MoveOne(fifo: seq<nat>, spine: seq<nat>)
    requires spine != []
    ensures (fifo + [spine[0]]) + spine[1..] == fifo + spine
  {
  }

  /** Consumption and the byte count. */
  lemma Account(chunks: seq<Chunk>, spine: seq<nat>, len: nat)
    requires Threaded(chunks, spine) && Unread(SlotsOf(chunks, spine))
    ensures var v, mem := SlotsOf(chunks, spine), MemoryOf(chunks);
      var rest, out := Consume(v, len).0, Upto(SlotBytes(mem, v), len);
      && Unread(rest) && |out| == Min(len, ChainLen(v)) && ChainLen(rest) == ChainLen(v) - |out|
      && out + SlotBytes(mem, rest) == SlotBytes(mem, v)
  {
    ThreadedFits(chunks, spine);
    ConsumeShrinks(SlotsOf(chunks, spine), len);
    AccountBytes(MemoryOf(chunks), SlotsOf(chunks, spine), len);
  }

  lemma AccountBytes(mem: Memory, v: seq<Slot>, len: nat)
    requires Fits(mem, v)
    ensures var rest, out := Consume(v, len).0, Upto(SlotBytes(mem, v), len);
      && |out| == Min(len, ChainLen(v)) && ChainLen(rest) == ChainLen(v) - |out|
      && out + SlotBytes(mem, rest) == SlotBytes(mem, v)
  {
    ConsumeFits(mem, v, len);
    ConsumeDropsBytes(mem, v, len);
    ChainLenBytes(mem, v);
    ChainLenBytes(mem, Consume(v, len).0);
    SomeAndRest(SlotBytes(mem, v), len);
  }

  lemma SomeAndRest(bytes: seq<byte>, n: nat)
    ensures Upto(bytes, n) + bytes[Min(n, |bytes|)..] == bytes
  {
  }

  /** Whatever one buffer does, another buffer on the same pool keeps its list, its offsets
      and its bytes. */
  lemma OtherBufferKept(chunks: seq<Chunk>, home: seq<Home>, now: seq<Chunk>, there: seq<Home>,
                        who: object, other: object, spine: seq<nat>)
    requires Untouched(chunks, home, now, there, who) && other != who
    requires Threaded(chunks, spine) && Lists(home, other, spine)
    ensures Threaded(now, spine) && Lists(there, other, spine) && SlotsOf(now, spine) == SlotsOf(chunks, spine)
    ensures SlotBytes(MemoryOf(now), SlotsOf(now, spine)) == SlotBytes(MemoryOf(chunks), SlotsOf(chunks, spine))
  {
    forall j: nat | j < |spine| ensures ThreadedAt(now, spine, j) && now[spine[j]] == chunks[spine[j]] {
      assert ThreadedAt(chunks, spine, j) && spine[j] in spine && ListAt(home, other, spine, spine[j]);
      assert UntouchedAt(chunks, home, now, there, who, spine[j]);
    }
    forall k: nat ensures ListAt(there, other, spine, k) {
      assert ListAt(home, other, spine, k);
      if k < |chunks| { assert UntouchedAt(chunks, home, now, there, who, k); }
    }
    WriteElsewhere(MemoryOf(chunks), MemoryOf(now), SlotsOf(chunks, spine));
  }
}
