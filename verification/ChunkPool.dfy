/** The chunk pool (`ChunkPoolManagerInput`): the chunk array and the ring through which
    the kernel takes chunks and the buffers give them back. */
module ChunkPools {
  import opened Bytes
  import opened Pointers
  import opened Ownership
  import opened BufferRings

  datatype Chunk = Chunk(data: seq<byte>, index: nat, next: Ptr, head: nat, tail: nat) {
    function ReadableBytes(): int { tail - head }

    function Reset(): Chunk { Chunk(data, index, Null, 0, 0) }
  }

  /** Where a chunk is: published in the ring, taken by the kernel, or in a buffer.  Finer
      than the place it has in the system of connections, where a chunk that the kernel has
      taken already counts as the connection's. */
  datatype Home = Published | Taken | Chained(owner: object)

  /** Chunks keep their number and size, and those in no chain are reset. */
  ghost predicate Stocked(chunks: seq<Chunk>, home: seq<Home>, size: nat) {
    && |home| == |chunks|
    && forall k: nat {:trigger StockedAt(chunks, home, size, k)} :: k < |chunks| ==> StockedAt(chunks, home, size, k)
  }

  ghost predicate StockedAt(chunks: seq<Chunk>, home: seq<Home>, size: nat, k: nat)
    requires k < |chunks| && k < |home|
  {
    && chunks[k].index == k && |chunks[k].data| == size
    && (!home[k].Chained? ==> chunks[k] == chunks[k].Reset())
  }

  /** Changing one entry of the stock. */
  lemma StockedUpdate(chunks: seq<Chunk>, home: seq<Home>, size: nat, k: nat, c: Chunk, h: Home)
    requires Stocked(chunks, home, size) && k < |chunks|
    requires c.index == k && |c.data| == size && (!h.Chained? ==> c == c.Reset())
    ensures Stocked(chunks[k := c], home[k := h], size)
  {
    var now, there := chunks[k := c], home[k := h];
    forall j: nat | j < |chunks| ensures StockedAt(now, there, size, j) {
      assert StockedAt(chunks, home, size, j);
    }
  }

  /** The ring holds, once each, the chunks whose home it is. */
  ghost predicate RingLists(home: seq<Home>, fifo: seq<nat>) {
    NoDup(fifo) && forall k: nat {:trigger RingAt(home, fifo, k)} :: RingAt(home, fifo, k)
  }

  ghost predicate RingAt(home: seq<Home>, fifo: seq<nat>, k: nat) {
    k in fifo <==> k < |home| && home[k] == Published
  }

  /** A change of home that does not involve the ring. */
  lemma RingElsewhere(home: seq<Home>, fifo: seq<nat>, k: nat, h: Home)
    requires RingLists(home, fifo) && k < |home| && home[k] != Published && h != Published
    ensures RingLists(home[k := h], fifo)
  {
    var there := home[k := h];
    forall x: nat ensures RingAt(there, fifo, x) { assert RingAt(home, fifo, x); }
  }

  lemma RingPush(home: seq<Home>, fifo: seq<nat>, k: nat)
    requires RingLists(home, fifo) && k < |home| && home[k] != Published
    ensures RingLists(home[k := Published], fifo + [k]) && |fifo| < |home|
  {
    assert RingAt(home, fifo, k);
    NoDupConcat(fifo, [k]);
    var there, more := home[k := Published], fifo + [k];
    forall x: nat ensures RingAt(there, more, x) { assert RingAt(home, fifo, x); }
    forall x <- fifo + [k] ensures x < |home| { assert RingAt(home, fifo, x); }
    Pigeonhole(fifo + [k], |home|);
  }

  lemma RingPop(home: seq<Home>, fifo: seq<nat>)
    requires RingLists(home, fifo) && fifo != []
    ensures fifo[0] < |home| && home[fifo[0]] == Published && RingLists(home[fifo[0] := Taken], fifo[1..])
  {
    var k := fifo[0];
    assert RingAt(home, fifo, k);
    assert fifo == [k] + fifo[1..] && fifo[..1] == [k];
    InPrefix(fifo, 1, k);
    NoDupDrop(fifo, 1);
    var there, less := home[k := Taken], fifo[1..];
    forall x: nat ensures RingAt(there, less, x) { assert RingAt(home, fifo, x); }
  }

  /** A list without repetition of numbers below `n` has at most `n` entries. */
  lemma {:induction false} Pigeonhole(l: seq<nat>, n: nat)
    requires NoDup(l) && forall k <- l :: k < n
    ensures |l| <= n
  {
    if l != [] {
      assert l[0] in l;
      if n - 1 in l {
        var i :| 0 <= i < |l| && l[i] == n - 1;
        var rest := l[..i] + l[i + 1..];
        forall j | 0 <= j < |rest| ensures rest[j] < n - 1 {
          var x := if j < i then j else j + 1;
          assert rest[j] == l[x] && l[x] in l;
          if x < i { Apart(l, x, i); } else { Apart(l, i, x); }
        }
        WithoutOne(l, i);
        Pigeonhole(rest, n - 1);
      } else {
        Pigeonhole(l, n - 1);
      }
    }
  }

  lemma WithoutOne(l: seq<nat>, i: nat)
    requires NoDup(l) && i < |l|
    ensures NoDup(l[..i] + l[i + 1..])
  {
    var rest := l[..i] + l[i + 1..];
    forall a, b | 0 <= a < b < |rest| ensures Differ(rest, a, b) {
      Apart(l, if a < i then a else a + 1, if b < i then b else b + 1);
    }
  }

  lemma SmallSlot(k: nat, n: nat)
    requires k < n
    ensures SlotOf(k, n) == k
  {
    ModUnique(k, n, 0, k);
  }

  function Numbers(n: nat): (r: seq<nat>)
    ensures |r| == n && forall k :: 0 <= k < n ==> r[k] == k
  {
    seq(n, k => k)
  }

  lemma AllPublished(home: seq<Home>)
    requires forall k :: 0 <= k < |home| ==> home[k] == Published
    ensures RingLists(home, Numbers(|home|))
  {
    var all := Numbers(|home|);
    forall a, b | 0 <= a < b < |all| ensures Differ(all, a, b) { }
    forall k: nat ensures RingAt(home, all, k) { if k < |all| { assert all[k] == k; } }
  }

  class ChunkPool {
    const chunkSize: nat
    const ring: BufferRing
    var chunks: seq<Chunk>
    var count: nat
    ghost var home: seq<Home>

    ghost predicate Valid()
      reads this, ring
    {
      && ring.Valid() && ring.entries == |chunks|
      && count == 0
      && Stocked(chunks, home, chunkSize)
      && RingLists(home, ring.fifo)
    }

    /** The constructor once the ring is registered: every chunk is offered to the kernel. */
    constructor (chunkSize: nat, ghost order: nat, chunkNum: nat)
      requires order <= 15 && chunkNum == Pow2(order)
      ensures Valid() && this.chunkSize == chunkSize && |chunks| == chunkNum
      ensures ring.fifo == Numbers(chunkNum) && fresh(ring)
      ensures forall k :: 0 <= k < chunkNum ==> chunks[k].data == seq(chunkSize, _ => 0)
    {
      this.chunkSize := chunkSize;
      chunks := seq(chunkNum, (k: nat) => Chunk(seq(chunkSize, _ => 0), k, Null, 0, 0));
      count := 0;
      home := seq(chunkNum, _ => Published);
      ring := new BufferRing(order, chunkNum);
      new;
      FillRing();
    }

    /** The loop of the initial fill: each chunk's number is written at its own offset. */
    method WriteAll()
      requires ring.Valid() && ring.fifo == [] && ring.kernelHead == 0 && ring.entries == |chunks|
      requires Stocked(chunks, home, chunkSize)
      modifies ring`bufs
      ensures ring.Valid() && forall k :: 0 <= k < |chunks| ==> ring.bufs[SlotOf(k, ring.entries)] == k
    {
      var i := 0;
      while i < |chunks|
        invariant 0 <= i <= |chunks| && ring.Valid() && forall k :: 0 <= k < i ==> ring.bufs[SlotOf(k, ring.entries)] == k
      {
        assert StockedAt(chunks, home, chunkSize, i);
        SmallSlot(i, ring.entries);
        forall k | 0 <= k < i ensures SlotOf(k, ring.entries) == k { SmallSlot(k, ring.entries); }
        ring.Add(chunks[i].index, chunks[i].index);
        i := i + 1;
      }
    }

    /** The initial fill, published with one advance. */
    method FillRing()
      requires ring.Valid() && ring.fifo == [] && ring.kernelHead == 0 && ring.entries == |chunks|
      requires Stocked(chunks, home, chunkSize) && forall k :: 0 <= k < |home| ==> home[k] == Published
      requires count == 0
      modifies ring`bufs, ring`tail, ring`fifo
      ensures Valid() && ring.fifo == Numbers(|chunks|)
    {
      AllPublished(home);
      WriteAll();
      ghost var all := Numbers(|chunks|);
      ring.Advance(ring.entries, all);
      assert ring.fifo == all;
    }

    method GetChunkById(id: nat) returns (r: Ptr)
      ensures r == if id < |chunks| then At(id) else Null
    {
      if id >= |chunks| { return Null; }
      r := At(id);
    }

    /** Resets the chunk and publishes it; the counter is back at zero. */
    method ReturnOneChunk(k: nat)
      requires Valid() && k < |chunks| && home[k] != Published
      modifies this`chunks, this`count, this`home, ring
      ensures Valid() && |chunks| == |old(chunks)|
      ensures chunks == old(chunks)[k := old(chunks)[k].Reset()]
      ensures home == old(home)[k := Published] && ring.fifo == old(ring.fifo) + [k]
    {
      assert StockedAt(chunks, home, chunkSize, k);
      RingPush(home, ring.fifo, k);
      StockedUpdate(chunks, home, chunkSize, k, chunks[k].Reset(), Published);
      chunks := chunks[k := chunks[k].Reset()];
      home := home[k := Published];
      ring.Add(chunks[k].index, count);
      count := count + 1;
      if count >= 1 {
        ring.Advance(count, [chunks[k].index]);
        count := 0;
      }
    }

    /** The kernel takes the oldest chunk, writes `payload` into it and posts its number.
        The chunk it writes to is in no buffer. */
    method Deliver(payload: seq<byte>) returns (id: nat)
      requires Valid() && ring.fifo != [] && |payload| <= chunkSize
      modifies this`chunks, this`home, ring
      ensures Valid() && id == old(ring.fifo)[0] && ring.fifo == old(ring.fifo)[1..]
      ensures id < |old(chunks)| == |old(home)| && |chunks| == |old(chunks)|
      ensures old(home)[id] == Published && home == old(home)[id := Taken]
      ensures |payload| <= |old(chunks)[id].data| &&
              chunks == old(chunks)[id := old(chunks)[id].(data := payload + old(chunks)[id].data[|payload|..])]
    {
      RingPop(home, ring.fifo);
      id := ring.Take();
      assert StockedAt(chunks, home, chunkSize, id);
      var filled := chunks[id].(data := payload + chunks[id].data[|payload|..]);
      StockedUpdate(chunks, home, chunkSize, id, filled, Taken);
      chunks := chunks[id := filled];
      home := home[id := Taken];
    }
  }
}
