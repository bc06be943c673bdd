/** The provided-buffer ring that the pool shares with the kernel: a power-of-two array
    indexed by a wrapping 16-bit tail under a mask. */
module BufferRings {

  const WRAP := 0x1_0000

  const SIZE_MAX: nat := 0xFFFF_FFFF_FFFF_FFFF

  function Pow2(k: nat): (r: nat)
    ensures r >= 1
  {
    if k == 0 then 1 else 2 * Pow2(k - 1)
  }

  /** Bitwise conjunction of two natural numbers. */
  function BitAnd(x: nat, y: nat): nat {
    if x == 0 || y == 0 then 0 else 2 * BitAnd(x / 2, y / 2) + (if x % 2 == 1 && y % 2 == 1 then 1 else 0)
  }

  lemma {:induction false} MaskIsMod(x: nat, k: nat)
    ensures BitAnd(x, Pow2(k) - 1) == x % Pow2(k)
    decreases k
  {
    if k > 0 {
      var n := Pow2(k - 1);
      MaskIsMod(x / 2, k - 1);
      assert (2 * n - 1) / 2 == n - 1;
      ModDouble(x, n);
    }
  }

  lemma ModDouble(x: nat, n: nat)
    requires n >= 1
    ensures x % (2 * n) == 2 * ((x / 2) % n) + x % 2
  {
    var q, r := (x / 2) / n, (x / 2) % n;
    assert x == 2 * (n * q + r) + x % 2;
    ModUnique(x, 2 * n, q, 2 * r + x % 2);
  }

  lemma ModUnique(x: nat, m: nat, q: nat, r: nat)
    requires 0 <= r < m && x == m * q + r
    ensures x % m == r
  {
    var d := x / m;
    if d < q { assert m * (d + 1) <= m * q; }
    if d > q { assert m * (q + 1) <= m * d; }
  }

  /** `n - 1` in the unsigned arithmetic of the test. */
  function Before(n: nat): nat { if n == 0 then SIZE_MAX else n - 1 }

  /** The constructor's test accepts exactly the powers of two, and zero. */
  lemma {:induction false} PowerTest(n: nat)
    ensures BitAnd(n, Before(n)) == 0 <==> n == 0 || exists k: nat :: n == Pow2(k)
    decreases n
  {
    if n == 0 {
    } else if n == 1 {
      assert n == Pow2(0);
    } else if n % 2 == 1 {
      assert (n - 1) / 2 == n / 2;
      AndSelf(n / 2);
      forall k: nat ensures n != Pow2(k) { if k > 0 { assert Pow2(k) % 2 == 0; } }
    } else {
      PowerTest(n / 2);
      assert (n - 1) / 2 == n / 2 - 1;
      if BitAnd(n, Before(n)) == 0 {
        var k: nat :| n / 2 == Pow2(k);
        assert n == Pow2(k + 1);
      } else {
        forall k: nat ensures n != Pow2(k) { if k > 0 { assert Pow2(k) / 2 == Pow2(k - 1); } }
      }
    }
  }

  lemma {:induction false} AndSelf(n: nat)
    requires n >= 1
    ensures BitAnd(n, n) >= 1
  {
    if n > 1 { AndSelf(n / 2); }
  }

  lemma Twofold(a: nat, b: nat)
    ensures (2 * a) * b == 2 * (a * b)
  {
  }

  /** The ring size divides the range of the tail. */
  lemma {:induction false} PowSplit(k: nat, m: nat)
    requires k <= m
    ensures Pow2(m) == Pow2(k) * Pow2(m - k)
    decreases k
  {
    if k > 0 {
      PowSplit(k - 1, m - 1);
      Twofold(Pow2(k - 1), Pow2(m - k));
    }
  }

  lemma WrapPow2()
    ensures Pow2(16) == WRAP
  {
    assert Pow2(8) == 256;
    assert Pow2(16) == 256 * Pow2(8) by {
      assert Pow2(12) == 16 * Pow2(8);
      assert Pow2(16) == 16 * Pow2(12);
    }
  }

  lemma ModMod(t: nat, n: nat, d: nat)
    requires n >= 1 && d >= 1 && n * d >= 1
    ensures (t % (n * d)) % n == t % n
  {
    var q, r := t / (n * d), t % (n * d);
    var a, b := r / n, r % n;
    Regroup(n, d, q, a, b);
    ModUnique(t, n, d * q + a, b);
  }

  lemma Regroup(n: nat, d: nat, q: nat, a: nat, b: nat)
    ensures (n * d) * q + (n * a + b) == n * (d * q + a) + b
  {
    assert (n * d) * q == n * (d * q);
    assert n * (d * q + a) == n * (d * q) + n * a;
  }

  /** Taking the tail modulo its range first does not change the slot. */
  lemma WrapSlot(t: nat, k: nat)
    requires k <= 16
    ensures (t % WRAP) % Pow2(k) == t % Pow2(k)
  {
    WrapPow2();
    PowSplit(k, 16);
    ModMod(t, Pow2(k), Pow2(16 - k));
  }

  /** Slots of distinct positions less than a full turn apart are distinct. */
  lemma SlotsDiffer(a: nat, b: nat, n: nat)
    requires a < b < a + n
    ensures a % n != b % n
  {
    var q, r := a / n, a % n + (b - a);
    if r < n {
      ModUnique(b, n, q, r);
    } else {
      assert n * (q + 1) == n * q + n;
      ModUnique(b, n, q + 1, r - n);
    }
  }

  // ----- The ring --------------------------------------------------------------

  function SlotOf(position: nat, n: nat): (r: nat)
    requires n >= 1
    ensures r < n
  {
    position % n
  }

  /** A ring of `Pow2(order)` entries.  `kernelHead` counts what the kernel has taken; the
      kernel keeps it wrapped like the tail.  `fifo` is what is published and not taken. */
  class BufferRing {
    ghost const order: nat
    const entries: nat
    const mask: nat
    var bufs: seq<nat>
    var tail: nat
    var kernelHead: nat
    ghost var fifo: seq<nat>

    ghost predicate Valid()
      reads this
    {
      && order <= 15 && entries == Pow2(order) && mask == entries - 1
      && |bufs| == entries && |fifo| <= entries
      && tail == (kernelHead + |fifo|) % WRAP
      && Shows(bufs, kernelHead, fifo)
    }

    static ghost predicate Shows(bufs: seq<nat>, first: nat, fifo: seq<nat>) {
      bufs != [] && forall k :: 0 <= k < |fifo| ==> bufs[SlotOf(first + k, |bufs|)] == fifo[k]
    }

    /** An initialised ring: tail zero, nothing published. */
    constructor (ghost order: nat, entries: nat)
      requires order <= 15 && entries == Pow2(order)
      ensures Valid() && fifo == [] && this.entries == entries && this.order == order && kernelHead == 0
    {
      this.order := order;
      this.entries := entries;
      mask := entries - 1;
      bufs := seq(entries, _ => 0);
      tail, kernelHead, fifo := 0, 0, [];
    }

    /** The slot that the mask picks for a wrapped position is that of the unbounded one. */
    method Slot(wrapped: nat, offset: nat, ghost position: nat) returns (slot: nat)
      requires Valid() && wrapped == position % WRAP
      ensures slot == SlotOf(position + offset, entries)
    {
      TailSlot(position, offset, order);
      slot := BitAnd(wrapped + offset, mask);
    }

    /** `io_uring_buf_ring_add`: writes an entry `offset` slots after the tail.  Nothing is
        published; an entry may be written only where the kernel is done reading. */
    method Add(bid: nat, offset: nat)
      requires Valid() && |fifo| + offset < entries
      modifies this`bufs
      ensures Valid() && bufs == old(bufs)[SlotOf(kernelHead + |fifo| + offset, entries) := bid]
    {
      AddShows(bufs, kernelHead, fifo, offset, bid);
      var slot := Slot(tail, offset, kernelHead + |fifo|);
      bufs := bufs[slot := bid];
    }

    static lemma AddShows(bufs: seq<nat>, first: nat, fifo: seq<nat>, offset: nat, bid: nat)
      requires Shows(bufs, first, fifo) && |fifo| + offset < |bufs|
      ensures Shows(bufs[SlotOf(first + |fifo| + offset, |bufs|) := bid], first, fifo)
    {
      var now := bufs[SlotOf(first + |fifo| + offset, |bufs|) := bid];
      forall k | 0 <= k < |fifo| ensures now[SlotOf(first + k, |bufs|)] == fifo[k] {
        SlotsDiffer(first + k, first + |fifo| + offset, |bufs|);
      }
    }

    /** `io_uring_buf_ring_advance`: publishes the `added` entries written last. */
    method Advance(count: nat, ghost added: seq<nat>)
      requires Valid() && count == |added| && |fifo| + count <= entries
      requires forall k :: 0 <= k < count ==> bufs[SlotOf(kernelHead + |fifo| + k, entries)] == added[k]
      modifies this`tail, this`fifo
      ensures Valid() && fifo == old(fifo) + added
    {
      AddWrapped(kernelHead + |fifo|, count);
      tail := (tail + count) % WRAP;
      ghost var was := fifo;
      fifo := fifo + added;
      forall k | 0 <= k < |fifo| ensures bufs[SlotOf(kernelHead + k, |bufs|)] == fifo[k] {
        if k >= |was| { assert kernelHead + k == kernelHead + |was| + (k - |was|); }
      }
    }

    /** The kernel takes the oldest entry. */
    method Take() returns (bid: nat)
      requires Valid() && fifo != []
      modifies this`kernelHead, this`fifo
      ensures Valid() && bid == old(fifo)[0] && fifo == old(fifo)[1..]
    {
      ghost var was := fifo;
      var slot := Slot(kernelHead % WRAP, 0, kernelHead);
      bid := bufs[slot];
      assert bid == bufs[SlotOf(kernelHead + 0, |bufs|)];
      kernelHead, fifo := kernelHead + 1, fifo[1..];
      forall k | 0 <= k < |fifo| ensures bufs[SlotOf(kernelHead + k, |bufs|)] == fifo[k] {
        assert kernelHead + k == (kernelHead - 1) + (k + 1) && fifo[k] == was[k + 1];
      }
    }
  }

  lemma AddWrapped(t: nat, c: nat)
    ensures (t % WRAP + c) % WRAP == (t + c) % WRAP
  {
    var q := (t % WRAP + c) / WRAP;
    ModUnique(t + c, WRAP, t / WRAP + q, (t % WRAP + c) % WRAP);
  }

  /** The masked slot is the slot of the unbounded position. */
  lemma TailSlot(t: nat, offset: nat, order: nat)
    requires order <= 15
    ensures BitAnd(t % WRAP + offset, Pow2(order) - 1) == SlotOf(t + offset, Pow2(order))
  {
    MaskIsMod(t % WRAP + offset, order);
    WrapSlot(t % WRAP + offset, order);
    AddWrapped(t, offset);
    WrapSlot(t + offset, order);
  }
}
