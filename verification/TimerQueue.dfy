/** The timer queue: an ordered map from (expiration, sequence) to timers and a set of
    (pointer, sequence) pairs that must agree with it.  Timers live in memory at addresses
    that the allocator may hand out again, so a stale `TimerId` can carry the address of a
    younger timer; only the sequence number tells them apart. */
module TimerQueues {

  datatype Timer = Timer(seqno: nat, expiration: int, interval: nat, repeat: bool)

  datatype Entry = Entry(when: int, seqno: nat)

  /** A map node: its key and the address of the timer it owns. */
  datatype Node = Node(key: Entry, addr: nat)

  /** `ActiveTimer` and `TimerId`: an address and the sequence number it was created with. */
  datatype Id = Id(addr: nat, seqno: nat)

  datatype TimerQ = TimerQ(
    mem: map<nat, Timer>, list: seq<Node>, active: set<Id>, canceling: set<Id>, running: bool)

  const EMPTY_QUEUE := TimerQ(map[], [], {}, {}, false)

  function KeyOf(t: Timer): Entry { Entry(t.expiration, t.seqno) }

  predicate Less(a: Entry, b: Entry) {
    a.when < b.when || (a.when == b.when && a.seqno < b.seqno)
  }

  // ----- The ordered map ---------------------------------------------------------

  ghost predicate Sorted(list: seq<Node>) {
    forall i: nat, j: nat {:trigger Before(list, i, j)} :: i < j < |list| ==> Before(list, i, j)
  }

  ghost predicate Before(list: seq<Node>, i: nat, j: nat)
    requires i < |list| && j < |list|
  {
    Less(list[i].key, list[j].key)
  }

  /** The position of the first node whose key is not less. */
  function LowerBound(list: seq<Node>, key: Entry): (p: nat)
    ensures p <= |list|
    ensures forall i :: 0 <= i < p ==> Less(list[i].key, key)
    ensures p < |list| ==> !Less(list[p].key, key)
  {
    if list == [] || !Less(list[0].key, key) then 0
    else
      var p := LowerBound(list[1..], key);
      assert forall i :: 1 <= i < 1 + p ==> list[i] == list[1..][i - 1];
      1 + p
  }

  /** `map[key] = node`: replaces the node of an equal key. */
  function MapPut(list: seq<Node>, n: Node): seq<Node> {
    var p := LowerBound(list, n.key);
    if p < |list| && list[p].key == n.key then list[p := n] else list[..p] + [n] + list[p..]
  }

  function MapErase(list: seq<Node>, key: Entry): seq<Node> {
    var p := LowerBound(list, key);
    if p < |list| && list[p].key == key then list[..p] + list[p + 1..] else list
  }

  /** All nodes from position `p` on are greater than a key that is not there. */
  lemma Above(list: seq<Node>, key: Entry, j: nat)
    requires Sorted(list) && LowerBound(list, key) <= j < |list|
    requires list[LowerBound(list, key)].key != key
    ensures Less(key, list[j].key)
  {
    var p := LowerBound(list, key);
    if p < j { assert Before(list, p, j); }
  }

  /** A node between the smaller and the greater ones. */
  lemma Between(list: seq<Node>, p: nat, n: Node)
    requires Sorted(list) && p <= |list|
    requires forall i :: 0 <= i < p ==> Less(list[i].key, n.key)
    requires forall j :: p <= j < |list| ==> Less(n.key, list[j].key)
    ensures Sorted(list[..p] + [n] + list[p..])
  {
    var now := list[..p] + [n] + list[p..];
    forall i: nat, j: nat | i < j < |now| ensures Before(now, i, j) {
      if i != p && j != p { assert Before(list, if i < p then i else i - 1, if j < p then j else j - 1); }
    }
  }

  lemma PutSorted(list: seq<Node>, n: Node)
    requires Sorted(list) && forall m <- list :: m.key != n.key
    ensures Sorted(MapPut(list, n)) && |MapPut(list, n)| == |list| + 1
    ensures forall m :: m in MapPut(list, n) <==> m in list || m == n
  {
    var p := LowerBound(list, n.key);
    forall j | p <= j < |list| ensures Less(n.key, list[j].key) { assert list[p] in list; Above(list, n.key, j); }
    assert p < |list| ==> list[p] in list;
    Between(list, p, n);
    assert list == list[..p] + list[p..];
  }

  lemma Without(list: seq<Node>, p: nat)
    requires Sorted(list) && p < |list|
    ensures Sorted(list[..p] + list[p + 1..]) && list[p] !in list[..p] + list[p + 1..]
  {
    var now := list[..p] + list[p + 1..];
    forall i: nat, j: nat | i < j < |now| ensures Before(now, i, j) {
      assert Before(list, if i < p then i else i + 1, if j < p then j else j + 1);
    }
    forall j: nat | j < |now| ensures now[j] != list[p] {
      if j < p { SortedDistinct(list, j, p); } else { SortedDistinct(list, p, j + 1); }
    }
  }

  lemma EraseSorted(list: seq<Node>, n: Node)
    requires Sorted(list) && n in list
    ensures Sorted(MapErase(list, n.key)) && |MapErase(list, n.key)| == |list| - 1
    ensures forall m :: m in MapErase(list, n.key) <==> m in list && m != n
  {
    var k :| 0 <= k < |list| && list[k] == n;
    var p := LowerBound(list, n.key);
    assert p < k ==> Before(list, p, k);
    assert p == k;
    Without(list, p);
    assert list == list[..p] + [n] + list[p + 1..];
  }

  /** Two positions of a sorted list hold different nodes. */
  lemma SortedDistinct(list: seq<Node>, i: nat, j: nat)
    requires Sorted(list) && i < j < |list|
    ensures list[i].key != list[j].key
  {
    assert Before(list, i, j);
  }

  // ----- Operations ----------------------------------------------------------------

  /** `insert`: files the timer at `addr` under its key. */
  function Insert(q: TimerQ, addr: nat): TimerQ
    requires addr in q.mem
  {
    var t := q.mem[addr];
    q.(list := MapPut(q.list, Node(KeyOf(t), addr)), active := q.active + {Id(addr, t.seqno)})
  }

  /** The assertions of `insert`: the sizes agree and the pair is new. */
  ghost predicate InsertOk(q: TimerQ, addr: nat)
    requires addr in q.mem
  {
    && |q.list| == |q.active| && Id(addr, q.mem[addr].seqno) !in q.active
    && |Insert(q, addr).list| == |Insert(q, addr).active|
  }

  /** `erase` of a pair in the set: its key is read through the pointer. */
  function Erase(q: TimerQ, id: Id): TimerQ
    requires id.addr in q.mem
  {
    q.(mem := q.mem - {id.addr}, list := MapErase(q.list, KeyOf(q.mem[id.addr])), active := q.active - {id})
  }

  /** `cancelTimerInLoop`. */
  function Cancel(q: TimerQ, id: Id): TimerQ {
    if id in q.active then (if id.addr in q.mem then Erase(q, id) else q)
    else if q.running then q.(canceling := q.canceling + {id})
    else q
  }

  /** No pointer in the set dangles, and the sizes agree. */
  ghost predicate CancelOk(q: TimerQ, id: Id) {
    && (id in q.active ==> id.addr in q.mem)
    && |q.list| == |q.active| && |Cancel(q, id).list| == |Cancel(q, id).active|
  }

  /** How many nodes at the front have expired: `upper_bound` of (now, largest number). */
  function Expired(list: seq<Node>, now: int): (k: nat)
    ensures k <= |list| && (forall i :: 0 <= i < k ==> list[i].key.when <= now)
    ensures k < |list| ==> list[k].key.when > now
  {
    if list == [] || list[0].key.when > now then 0
    else
      var k := Expired(list[1..], now);
      assert forall i :: 1 <= i < 1 + k ==> list[i] == list[1..][i - 1];
      1 + k
  }

  function Addrs(list: seq<Node>): (r: seq<nat>)
    ensures |r| == |list| && forall i :: 0 <= i < |list| ==> r[i] == list[i].addr
  {
    seq(|list|, i requires 0 <= i < |list| => list[i].addr)
  }

  /** `getExpiredTimers`, then the cancel set is cleared and the callback phase begins. */
  function Begin(q: TimerQ, now: int): TimerQ {
    var k := Expired(q.list, now);
    TimerQ(q.mem, q.list[k..], set id <- q.active | !Gone(q, k, id), {}, true)
  }

  /** The pair belongs to one of the first `k` nodes. */
  predicate Gone(q: TimerQ, k: nat, id: Id)
    requires k <= |q.list|
  {
    exists i :: 0 <= i < k && q.list[i].addr == id.addr && q.list[i].key.seqno == id.seqno
  }

  function BatchAt(q: TimerQ, now: int): seq<nat> {
    Addrs(q.list[..Expired(q.list, now)])
  }

  /** `reset` for one timer of the batch: re-armed, or left to be destroyed. */
  function ResetOne(q: TimerQ, addr: nat, now: int): TimerQ
    requires addr in q.mem
  {
    if Rearms(q, addr) then Insert(Armed(q, addr, now), addr)
    else q.(mem := q.mem - {addr})
  }

  predicate Rearms(q: TimerQ, addr: nat)
    requires addr in q.mem
  {
    q.mem[addr].repeat && Id(addr, q.mem[addr].seqno) !in q.canceling
  }

  // ----- Agreement of the two indexes ----------------------------------------------

  /** The timer at `addr` is filed in the list under its own key. */
  predicate Listed(q: TimerQ, addr: nat) {
    addr in q.mem && Node(KeyOf(q.mem[addr]), addr) in q.list
  }

  ghost predicate ActiveAt(q: TimerQ, id: Id) {
    id in q.active <==> Listed(q, id.addr) && q.mem[id.addr].seqno == id.seqno
  }

  ghost predicate FiledAt(q: TimerQ, n: Node) {
    n in q.list ==> n.addr in q.mem && n.key == KeyOf(q.mem[n.addr])
  }

  ghost predicate SeqApart(mem: map<nat, Timer>, a: nat, b: nat) {
    a in mem && b in mem && a != b ==> mem[a].seqno != mem[b].seqno
  }

  /** List and set are in bijection, and each key is its timer's. */
  ghost predicate Agrees(q: TimerQ) {
    && Sorted(q.list)
    && (forall n {:trigger FiledAt(q, n)} :: FiledAt(q, n))
    && (forall id {:trigger ActiveAt(q, id)} :: ActiveAt(q, id))
    && (forall a: nat, b: nat {:trigger SeqApart(q.mem, a, b)} :: SeqApart(q.mem, a, b))
  }

  /** The assertion made all over the code follows from the agreement. */
  lemma SizesAgree(q: TimerQ)
    requires Agrees(q)
    ensures |q.list| == |q.active|
  {
    forall id | id in q.active ensures Listed(q, id.addr) { assert ActiveAt(q, id); }
    assert q.list[..|q.list|] == q.list;
    CountPairs(q, |q.list|, q.active);
  }

  lemma {:induction false} CountPairs(q: TimerQ, k: nat, ids: set<Id>)
    requires Agrees(q) && k <= |q.list|
    requires forall id :: id in ids <==>
      id in q.active && id.addr in q.mem && Node(KeyOf(q.mem[id.addr]), id.addr) in q.list[..k]
    ensures |ids| == k
  {
    forall id | id in q.active ensures id.addr in q.mem { assert ActiveAt(q, id); }
    if k == 0 {
      assert ids == {};
    } else {
      var n := q.list[k - 1];
      assert n in q.list && FiledAt(q, n);
      var mine := Id(n.addr, q.mem[n.addr].seqno);
      assert ActiveAt(q, mine);
      assert q.list[..k] == q.list[..k - 1] + [n];
      forall i: nat | i < k - 1 ensures q.list[i] != n { SortedDistinct(q.list, i, k - 1); }
      forall id | id in ids && id != mine ensures Node(KeyOf(q.mem[id.addr]), id.addr) in q.list[..k - 1] {
        assert ActiveAt(q, id);
      }
      CountPairs(q, k - 1, ids - {mine});
    }
  }

  lemma InsertAgrees(q: TimerQ, addr: nat)
    requires Agrees(q) && addr in q.mem && !Listed(q, addr)
    requires forall n <- q.list :: n.addr != addr
    ensures Agrees(Insert(q, addr)) && InsertOk(q, addr)
    ensures forall a: nat :: Listed(Insert(q, addr), a) <==> Listed(q, a) || a == addr
  {
    var now, n := Insert(q, addr), Node(KeyOf(q.mem[addr]), addr);
    forall m <- q.list ensures m.key != n.key {
      assert FiledAt(q, m) && SeqApart(q.mem, m.addr, addr);
    }
    PutSorted(q.list, n);
    forall m ensures FiledAt(now, m) { assert FiledAt(q, m); }
    forall id ensures ActiveAt(now, id) { assert ActiveAt(q, id); }
    forall a: nat, b: nat ensures SeqApart(now.mem, a, b) { assert SeqApart(q.mem, a, b); }
    assert ActiveAt(q, Id(addr, q.mem[addr].seqno));
    SizesAgree(q);
    SizesAgree(now);
  }

  lemma EraseAgrees(q: TimerQ, id: Id)
    requires Agrees(q) && id in q.active
    ensures id.addr in q.mem && Agrees(Erase(q, id))
    ensures forall a: nat :: Listed(Erase(q, id), a) <==> Listed(q, a) && a != id.addr
  {
    assert ActiveAt(q, id);
    var now, n := Erase(q, id), Node(KeyOf(q.mem[id.addr]), id.addr);
    EraseSorted(q.list, n);
    forall m ensures FiledAt(now, m) {
      assert FiledAt(q, m);
      if m in now.list { assert m.addr != id.addr; }
    }
    forall x ensures ActiveAt(now, x) { assert ActiveAt(q, x); }
    forall a: nat, b: nat ensures SeqApart(now.mem, a, b) { assert SeqApart(q.mem, a, b); }
  }

  /** Taking the expired front off the list takes the same timers out of the set. */
  lemma BeginAgrees(q: TimerQ, now: int)
    requires Agrees(q)
    ensures Agrees(Begin(q, now))
    ensures forall a: nat :: Listed(Begin(q, now), a) <==> Listed(q, a) && a !in BatchAt(q, now)
  {
    var k, after, batch := Expired(q.list, now), Begin(q, now), BatchAt(q, now);
    forall i: nat, j: nat | i < j < |after.list| ensures Before(after.list, i, j) { assert Before(q.list, k + i, k + j); }
    forall n ensures FiledAt(after, n) { assert FiledAt(q, n); }
    forall a: nat, b: nat ensures SeqApart(after.mem, a, b) { assert SeqApart(q.mem, a, b); }
    forall a: nat ensures Listed(after, a) <==> Listed(q, a) && a !in batch { FrontOrRest(q, k, a); }
    forall id ensures ActiveAt(after, id) {
      assert ActiveAt(q, id);
      FrontOrRest(q, k, id.addr);
      if id in q.active { GoneIff(q, k, id); }
    }
  }

  /** A listed timer is in the first `k` nodes or in the rest, and not in both. */
  lemma FrontOrRest(q: TimerQ, k: nat, a: nat)
    requires Agrees(q) && k <= |q.list|
    ensures a in q.mem ==> (Node(KeyOf(q.mem[a]), a) in q.list[k..] <==> Listed(q, a) && a !in Addrs(q.list[..k]))
    ensures a in Addrs(q.list[..k]) ==> Listed(q, a)
  {
    assert q.list == q.list[..k] + q.list[k..];
    var front := Addrs(q.list[..k]);
    if a in front {
      var i :| 0 <= i < k && front[i] == a;
      assert q.list[i] in q.list && FiledAt(q, q.list[i]);
      forall j: nat | j < |q.list[k..]| ensures q.list[k..][j] != q.list[i] { SortedDistinct(q.list, i, k + j); }
    } else if Listed(q, a) {
      assert forall i :: 0 <= i < k ==> q.list[..k][i].addr == front[i];
    }
  }

  lemma GoneIff(q: TimerQ, k: nat, id: Id)
    requires Agrees(q) && k <= |q.list| && id in q.active
    ensures Gone(q, k, id) <==> id.addr in Addrs(q.list[..k])
  {
    var front := Addrs(q.list[..k]);
    assert ActiveAt(q, id);
    if id.addr in front {
      var i :| 0 <= i < k && front[i] == id.addr;
      assert q.list[i] in q.list && FiledAt(q, q.list[i]);
    }
    if Gone(q, k, id) {
      var i :| 0 <= i < k && q.list[i].addr == id.addr && q.list[i].key.seqno == id.seqno;
      assert front[i] == id.addr;
    }
  }

  /** The batch holds each of its timers once. */
  lemma BatchDistinct(q: TimerQ, now: int, i: nat, j: nat)
    requires Agrees(q) && i < j < |BatchAt(q, now)|
    ensures BatchAt(q, now)[i] != BatchAt(q, now)[j]
  {
    SortedDistinct(q.list, i, j);
    assert q.list[i] in q.list && q.list[j] in q.list;
    assert FiledAt(q, q.list[i]) && FiledAt(q, q.list[j]);
  }

  /** Changing the expiration of a timer that is not filed. */
  lemma RestartAgrees(q: TimerQ, addr: nat, when: int)
    requires Agrees(q) && addr in q.mem && forall n <- q.list :: n.addr != addr
    ensures var now := q.(mem := q.mem[addr := q.mem[addr].(expiration := when)]);
      Agrees(now) && forall a: nat :: Listed(now, a) <==> Listed(q, a)
  {
    var now := q.(mem := q.mem[addr := q.mem[addr].(expiration := when)]);
    forall n ensures FiledAt(now, n) { assert FiledAt(q, n); }
    forall id ensures ActiveAt(now, id) { assert ActiveAt(q, id); }
    forall a: nat, b: nat ensures SeqApart(now.mem, a, b) { assert SeqApart(q.mem, a, b); }
  }

  /** Destroying a timer that is not filed. */
  lemma FreeAgrees(q: TimerQ, addr: nat)
    requires Agrees(q) && forall n <- q.list :: n.addr != addr
    ensures var now := q.(mem := q.mem - {addr});
      Agrees(now) && forall a: nat :: Listed(now, a) <==> Listed(q, a)
  {
    var now := q.(mem := q.mem - {addr});
    forall n ensures FiledAt(now, n) { assert FiledAt(q, n); }
    forall id ensures ActiveAt(now, id) { assert ActiveAt(q, id); }
    forall a: nat, b: nat ensures SeqApart(now.mem, a, b) { assert SeqApart(q.mem, a, b); }
  }

  function Armed(q: TimerQ, addr: nat, now: int): TimerQ
    requires addr in q.mem
  {
    q.(mem := q.mem[addr := q.mem[addr].(expiration := now + q.mem[addr].interval)])
  }

  lemma ResetAgrees(q: TimerQ, addr: nat, now: int)
    requires Agrees(q) && addr in q.mem && !Listed(q, addr)
    ensures Agrees(ResetOne(q, addr, now))
    ensures forall a: nat :: Listed(ResetOne(q, addr, now), a) <==> Listed(q, a) || (a == addr && Rearms(q, addr))
    ensures Rearms(q, addr) ==> InsertOk(Armed(q, addr, now), addr)
  {
    forall n <- q.list ensures n.addr != addr { assert FiledAt(q, n); }
    if Rearms(q, addr) {
      RestartAgrees(q, addr, now + q.mem[addr].interval);
      InsertAgrees(Armed(q, addr, now), addr);
    } else {
      FreeAgrees(q, addr);
    }
  }
}
