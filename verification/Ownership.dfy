/** Who holds each chunk of the shared pool.  A chunk has one `Place`, so the lists that
    the places own are disjoint by construction; what must be proved of every operation
    is that each list holds exactly the chunks whose place it is. */
module Ownership {

  datatype Place = InRing | OfConn(id: nat)

  ghost predicate NoDup(l: seq<nat>) {
    forall a, b {:trigger Differ(l, a, b)} :: 0 <= a < b < |l| ==> Differ(l, a, b)
  }

  ghost predicate Differ(l: seq<nat>, a: nat, b: nat)
    requires a < |l| && b < |l|
  {
    l[a] != l[b]
  }

  lemma Apart(l: seq<nat>, a: nat, b: nat)
    requires NoDup(l) && a < b < |l|
    ensures l[a] != l[b]
  {
    assert Differ(l, a, b);
  }

  /** Dropping entries at either end keeps a list free of repetition. */
  lemma NoDupTake(l: seq<nat>, n: nat)
    requires NoDup(l) && n <= |l|
    ensures NoDup(l[..n])
  {
    forall a, b | 0 <= a < b < n ensures Differ(l[..n], a, b) { Apart(l, a, b); }
  }

  lemma NoDupDrop(l: seq<nat>, n: nat)
    requires NoDup(l) && n <= |l|
    ensures NoDup(l[n..])
  {
    forall a, b | 0 <= a < b < |l| - n ensures Differ(l[n..], a, b) { Apart(l, n + a, n + b); }
  }

  /** So does joining two lists with nothing in common. */
  lemma NoDupConcat(l: seq<nat>, r: seq<nat>)
    requires NoDup(l) && NoDup(r) && forall k <- r :: k !in l
    ensures NoDup(l + r)
  {
    forall a, b | 0 <= a < b < |l + r| ensures Differ(l + r, a, b) {
      if b < |l| { Apart(l, a, b); }
      else if a >= |l| { Apart(r, a - |l|, b - |l|); }
      else { assert l[a] in l && r[b - |l|] in r; }
    }
  }

  /** `l` lists, without repetition, exactly the chunks whose place is `who`. */
  ghost predicate Owns(place: seq<Place>, who: Place, l: seq<nat>) {
    && NoDup(l)
    && (forall k :: k in l <==> 0 <= k < |place| && place[k] == who)
  }

  function Reassign(place: seq<Place>, moved: seq<nat>, who: Place): (r: seq<Place>)
    ensures |r| == |place|
    ensures forall k :: 0 <= k < |place| ==> r[k] == (if k in moved then who else place[k])
  {
    seq(|place|, k requires 0 <= k < |place| => if k in moved then who else place[k])
  }

  /** The front of one list moves to the end of another. */
  lemma MoveFront(place: seq<Place>, a: Place, b: Place, la: seq<nat>, lb: seq<nat>, n: nat)
    requires Owns(place, a, la) && Owns(place, b, lb) && a != b && n <= |la|
    ensures Owns(Reassign(place, la[..n], b), a, la[n..])
    ensures Owns(Reassign(place, la[..n], b), b, lb + la[..n])
  {
    var after := Reassign(place, la[..n], b);
    assert forall k <- la[..n] :: k in la;
    assert forall k <- la[n..] :: k in la;
    assert la == la[..n] + la[n..];
    forall k ensures k in la[n..] <==> 0 <= k < |after| && after[k] == a {
      if k in la && k in la[..n] { InPrefix(la, n, k); }
    }
    NoDupTake(la, n);
    NoDupDrop(la, n);
    NoDupConcat(lb, la[..n]);
  }

  lemma InPrefix(l: seq<nat>, n: nat, k: nat)
    requires NoDup(l) && n <= |l| && k in l[..n]
    ensures k !in l[n..]
  {
    var a :| 0 <= a < n && l[..n][a] == k;
    forall b | 0 <= b < |l[n..]| ensures l[n..][b] != k { Apart(l, a, n + b); }
  }

  /** Everybody else's list is untouched by such a move. */
  lemma MoveFrame(place: seq<Place>, a: Place, b: Place, la: seq<nat>, n: nat, c: Place, lc: seq<nat>)
    requires Owns(place, a, la) && Owns(place, c, lc) && c != a && c != b && n <= |la|
    ensures Owns(Reassign(place, la[..n], b), c, lc)
  {
    assert forall k <- la[..n] :: k in la;
  }
}
