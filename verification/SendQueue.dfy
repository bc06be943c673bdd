/** The output buffer of a connection (`SendQueue`): a singly linked list of
    fragments with a cursor marking the first fragment not yet handed to the
    kernel.

    `SendQ` is the value the list denotes; the class below keeps the pointers. */
module SendQueues {
  import opened Bytes
  import opened Pointers

  /** `frags[i]` is the unsent remainder of fragment `i`; `cur` is the position of
      the cursor, `|frags|` when the cursor is null. */
  datatype SendQ = SendQ(frags: seq<seq<byte>>, cur: nat)

  const EMPTY := SendQ([], 0)

  ghost function Pending(q: SendQ): seq<byte> { Flatten(q.frags) }

  function Append(q: SendQ, data: seq<byte>): SendQ {
    SendQ(q.frags + [data], q.cur)
  }

  /** The fragments a batch of at most `max` slices takes from the cursor on. */
  function BatchOf(q: SendQ, max: nat): seq<seq<byte>> {
    q.frags[Min(q.cur, |q.frags|)..Min(q.cur + max, |q.frags|)]
  }

  function AfterBatch(q: SendQ, max: nat): SendQ {
    SendQ(q.frags, Min(q.cur + max, |q.frags|))
  }

  /** Removing `len` bytes from the front.  A fragment leaves the list when its last
      byte does; an empty fragment leaves only when there are bytes still to skip. */
  function Skip(frags: seq<seq<byte>>, len: nat): seq<seq<byte>> {
    if len == 0 || frags == [] then frags
    else if |frags[0]| <= len then Skip(frags[1..], len - |frags[0]|)
    else [frags[0][len..]] + frags[1..]
  }

  /** `Skip` drops exactly the first `len` bytes of the stream, or all of it. */
  lemma {:induction false} SkipDropsBytes(frags: seq<seq<byte>>, len: nat)
    ensures Flatten(Skip(frags, len)) == Flatten(frags)[Min(len, |Flatten(frags)|)..]
    decreases |frags|
  {
    if len == 0 || frags == [] {
    } else if |frags[0]| <= len {
      SkipDropsBytes(frags[1..], len - |frags[0]|);
    } else {
      var r := [frags[0][len..]] + frags[1..];
      assert r[1..] == frags[1..];
    }
  }

  /** What `getBatchFragment` hands to the kernel is a prefix of the pending bytes
      whenever the cursor stands at the head of the list. */
  lemma BatchIsPrefix(q: SendQ, max: nat)
    requires q.cur == 0
    ensures Flatten(BatchOf(q, max)) <= Pending(q)
    ensures BatchOf(q, max) == AfterBatch(q, max).frags[..AfterBatch(q, max).cur]
  {
    FlattenSplit(q.frags, Min(max, |q.frags|));
  }

  /** A fragment; a pointer to one is its number in the order of allocation. */
  datatype TxFragment = TxFragment(data: seq<byte>, written: nat, next: Ptr) {
    ghost predicate Sane() { written <= |data| }

    function BeginRead(): seq<byte>
      requires written <= |data|
    {
      data[written..]
    }
  }

  /** The nodes from `gone` on are linked in order and hold `frags`. */
  ghost predicate Represents(nodes: seq<TxFragment>, gone: nat, frags: seq<seq<byte>>) {
    && |frags| == |nodes| - gone
    && (forall j :: gone <= j < |nodes| ==> nodes[j].Sane() && nodes[j].next == After(nodes, j))
    && (forall i :: 0 <= i < |frags| ==> frags[i] == nodes[gone + i].BeginRead())
  }

  ghost function After(nodes: seq<TxFragment>, j: nat): Ptr {
    if j + 1 < |nodes| then At(j + 1) else Null
  }

  /** Linking a new node behind the last one appends its data. */
  lemma LinkNode(nodes: seq<TxFragment>, gone: nat, frags: seq<seq<byte>>, data: seq<byte>)
    requires Represents(nodes, gone, frags)
    ensures Represents(Linked(nodes, gone) + [TxFragment(data, 0, Null)], gone, frags + [data])
  {
    var now := Linked(nodes, gone) + [TxFragment(data, 0, Null)];
    forall i | 0 <= i < |frags| ensures frags[i] == now[gone + i].BeginRead() {
      assert now[gone + i].data == nodes[gone + i].data;
    }
  }

  /** The last live node, if there is one, now points past the end. */
  function Linked(nodes: seq<TxFragment>, gone: nat): seq<TxFragment>
    requires gone <= |nodes|
  {
    if gone == |nodes| then nodes
    else nodes[|nodes| - 1 := nodes[|nodes| - 1].(next := At(|nodes|))]
  }

  class SendQueue {
    /** The memory that `new TxFragment()` allocates from.  Nodes before `gone` have been
        deleted. */
    var nodes: seq<TxFragment>
    var head: Ptr
    var tail: Ptr
    var curr: Ptr
    var sliceSize: nat
    var totalLen: nat

    ghost var gone: nat
    ghost var frags: seq<seq<byte>>

    ghost predicate Links()
      reads this
    {
      && Represents(nodes, gone, frags)
      && sliceSize == |frags|
      && head == (if frags == [] then Null else At(gone))
      && tail == (if frags == [] then Null else At(|nodes| - 1))
    }

    ghost predicate Shaped()
      reads this
    {
      Links() && (curr.At? ==> gone <= curr.addr < |nodes|)
    }

    ghost predicate Valid()
      reads this
    {
      Shaped() && totalLen == |Flatten(frags)|
    }

    ghost function View(): SendQ
      requires Shaped()
      reads this
    {
      SendQ(frags, if curr.Null? then |frags| else curr.addr - gone)
    }

    constructor ()
      ensures Valid() && View() == EMPTY
    {
      nodes := [];
      head, tail, curr := Null, Null, Null;
      sliceSize, totalLen := 0, 0;
      gone, frags := 0, [];
    }

    /** Links a new fragment at the end.  The cursor is moved only when it was null,
        which leaves its position unchanged. */
    method PushBack(data: seq<byte>)
      requires Shaped()
      modifies this
      ensures Shaped() && View() == Append(old(View()), data) && unchanged(`totalLen)
    {
      var fragment := At(|nodes|);
      LinkNode(nodes, gone, frags, data);
      if tail.Null? {
        head := fragment;
      } else {
        nodes := nodes[tail.addr := nodes[tail.addr].(next := fragment)];
      }
      nodes := nodes + [TxFragment(data, 0, Null)];
      tail := fragment;
      curr := if curr.Null? then tail else curr;
      sliceSize := sliceSize + 1;
      frags := frags + [data];
    }

    method AppendData(data: seq<byte>)
      requires Valid()
      modifies this
      ensures Valid() && View() == Append(old(View()), data)
    {
      FlattenSnoc(frags, data);
      PushBack(data);
      totalLen := totalLen + |data|;
    }

    /** Unlinks the head.  While `Retrieve` runs, the cursor may point at the deleted
        node; only an emptied list resets it here. */
    method PopFront()
      requires Links()
      modifies this
      ensures Links() && unchanged(`totalLen) && unchanged(`nodes)
      ensures frags == if old(frags) == [] then [] else old(frags)[1..]
    {
      if head.Null? { return; }
      head := nodes[head.addr].next;
      if head.Null? { curr, tail := Null, Null; }
      sliceSize := sliceSize - 1;
      gone, frags := gone + 1, frags[1..];
    }

    method GetOneIovec() returns (iov: seq<byte>)
      requires Shaped()
      modifies this`curr
      ensures Shaped()
      ensures var q := old(View());
              && View() == AfterBatch(q, 1)
              && iov == (if q.cur < |q.frags| then q.frags[q.cur] else [])
    {
      if curr.Null? { return []; }
      iov := nodes[curr.addr].BeginRead();
      assert frags[curr.addr - gone] == iov;
      curr := nodes[curr.addr].next;
    }

    /** One turn of the loop below. */
    method NextSlice(ghost q: SendQ, ghost i: nat) returns (one: seq<byte>)
      requires Shaped() && View() == AfterBatch(q, i) && curr.At?
      modifies this`curr
      ensures Shaped() && View() == AfterBatch(q, i + 1) && BatchOf(q, i + 1) == BatchOf(q, i) + [one]
    {
      BatchMore(q, i);
      one := GetOneIovec();
    }

    method GetBatchFragment(max: nat) returns (iovecs: seq<seq<byte>>)
      requires Shaped()
      modifies this`curr
      ensures Shaped()
      ensures iovecs == BatchOf(old(View()), max) && View() == AfterBatch(old(View()), max)
    {
      ghost var q := View();
      var i := 0;
      iovecs := [];
      BatchNone(q);
      while i < max && curr.At?
        invariant Shaped()
        invariant i <= max && iovecs == BatchOf(q, i) && View() == AfterBatch(q, i)
      {
        var one := NextSlice(q, i);
        iovecs := iovecs + [one];
        i := i + 1;
      }
      if i < max { BatchAll(q, i, max); }
    }

    /** One turn of the loop in `Retrieve`: takes up to `len` bytes from the head and
        unlinks it when nothing is left in it. */
    method TakeFromHead(len: nat) returns (offset: nat)
      requires Links() && head.At? && 0 < len
      modifies this
      ensures Links() && unchanged(`totalLen)
      ensures offset == Min(|old(frags)[0]|, len)
      ensures frags == HeadTaken(old(frags), len)
    {
      var h := nodes[head.addr];
      assert frags[0] == h.BeginRead();
      offset := Min(|h.data| - h.written, len);
      nodes := nodes[head.addr := h.(written := h.written + offset)];
      frags := frags[0 := frags[0][offset..]];
      if h.written + offset == |h.data| {
        PopFront();
      }
    }

    /** The loop of `Retrieve`. */
    method TakeBytes(len: nat) returns (written: nat)
      requires Links()
      modifies this
      ensures Links() && unchanged(`totalLen)
      ensures Skips(frags, 0, Skip(old(frags), len), |Flatten(old(frags))| - written)
    {
      ghost var goal, total := Skip(frags, len), |Flatten(frags)|;
      written := 0;
      while written < len && head.At?
        invariant Links() && unchanged(`totalLen)
        invariant written <= len
        invariant Skips(frags, len - written, goal, total - written)
        decreases |frags|, len - written
      {
        SkipHead(frags, len - written, goal, total - written);
        var offset := TakeFromHead(len - written);
        written := written + offset;
      }
    }

    method Retrieve(len: nat)
      requires Valid()
      modifies this
      ensures Valid() && View() == SendQ(Skip(old(frags), len), 0)
    {
      var written := TakeBytes(len);
      curr := head;
      totalLen := totalLen - written;
    }
  }

  lemma BatchNone(q: SendQ)
    requires q.cur <= |q.frags|
    ensures BatchOf(q, 0) == [] && AfterBatch(q, 0) == q
  {
  }

  /** One more slice. */
  lemma BatchMore(q: SendQ, i: nat)
    requires AfterBatch(q, i).cur < |q.frags|
    ensures q.cur + i < |q.frags| && BatchOf(q, i + 1) == BatchOf(q, i) + [q.frags[q.cur + i]]
    ensures AfterBatch(q, i).cur == q.cur + i && AfterBatch(AfterBatch(q, i), 1) == AfterBatch(q, i + 1)
  {
  }

  /** Beyond the end there is nothing to add. */
  lemma BatchAll(q: SendQ, i: nat, max: nat)
    requires i <= max && AfterBatch(q, i).cur >= |q.frags|
    ensures BatchOf(q, i) == BatchOf(q, max) && AfterBatch(q, i) == AfterBatch(q, max)
  {
  }

  /** Skipping `len` more bytes of `now` leads to `goal`; `now` holds `total` bytes. */
  ghost predicate Skips(now: seq<seq<byte>>, len: nat, goal: seq<seq<byte>>, total: int) {
    Skip(now, len) == goal && |Flatten(now)| == total
  }

  /** The list after up to `len` bytes were taken from its head. */
  ghost function HeadTaken(frags: seq<seq<byte>>, len: nat): seq<seq<byte>>
    requires frags != []
  {
    if |frags[0]| <= len then frags[1..] else frags[0 := frags[0][len..]]
  }

  /** One turn of the loop against `Skip`. */
  lemma SkipHead(now: seq<seq<byte>>, len: nat, goal: seq<seq<byte>>, total: int)
    requires now != [] && 0 < len && Skips(now, len, goal, total)
    ensures var n := Min(|now[0]|, len); Skips(HeadTaken(now, len), len - n, goal, total - n)
    ensures |HeadTaken(now, len)| < |now| || (|HeadTaken(now, len)| == |now| && Min(|now[0]|, len) == len)
  {
    if len < |now[0]| {
      var next := now[0 := now[0][len..]];
      assert next[1..] == now[1..];
      assert next == [now[0][len..]] + now[1..];
    }
  }
}
