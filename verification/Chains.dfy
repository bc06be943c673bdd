/** What the chunks of an input chain hold, and how consuming bytes changes it. */
module Chains {
  import opened Bytes
  import opened Connections

  type Memory = seq<seq<byte>>

  /** The unread bytes of a chunk. */
  function SlotData(mem: Memory, s: Slot): seq<byte> {
    if s.idx < |mem| && s.head <= s.tail <= |mem[s.idx]| then mem[s.idx][s.head..s.tail] else []
  }

  function SlotBytes(mem: Memory, slots: seq<Slot>): seq<byte> {
    if slots == [] then [] else SlotData(mem, slots[0]) + SlotBytes(mem, slots[1..])
  }

  function Idx(slots: seq<Slot>): (r: seq<nat>)
    ensures |r| == |slots| && forall k :: 0 <= k < |slots| ==> r[k] == slots[k].idx
  {
    seq(|slots|, k requires 0 <= k < |slots| => slots[k].idx)
  }

  /** Every chunk lies in memory with its offsets in order. */
  ghost predicate Fits(mem: Memory, slots: seq<Slot>) {
    forall k :: 0 <= k < |slots| ==>
      && slots[k].idx < |mem|
      && slots[k].head <= slots[k].tail <= |mem[slots[k].idx]|
  }

  lemma {:induction false} SlotBytesConcat(mem: Memory, a: seq<Slot>, b: seq<Slot>)
    ensures SlotBytes(mem, a + b) == SlotBytes(mem, a) + SlotBytes(mem, b)
  {
    if a == [] {
      assert a + b == b;
    } else {
      assert (a + b)[1..] == a[1..] + b;
      SlotBytesConcat(mem, a[1..], b);
    }
  }

  lemma FitsConcat(mem: Memory, a: seq<Slot>, b: seq<Slot>)
    ensures Fits(mem, a + b) <==> Fits(mem, a) && Fits(mem, b)
  {
    var c := a + b;
    assert forall k :: 0 <= k < |a| ==> c[k] == a[k];
    assert forall k :: 0 <= k < |b| ==> c[|a| + k] == b[k];
  }

  lemma IdxConcat(a: seq<Slot>, b: seq<Slot>)
    ensures Idx(a + b) == Idx(a) + Idx(b)
  {
  }

  lemma {:induction false} ChainLenBytes(mem: Memory, chain: seq<Slot>)
    requires Fits(mem, chain)
    ensures ChainLen(chain) == |SlotBytes(mem, chain)|
  {
    if chain != [] { ChainLenBytes(mem, chain[1..]); }
  }

  lemma {:induction false} ChainLenSnoc(chain: seq<Slot>, s: Slot)
    ensures ChainLen(chain + [s]) == ChainLen(chain) + Readable(s)
  {
    if chain == [] {
      assert [s][1..] == [];
    } else {
      assert (chain + [s])[1..] == chain[1..] + [s];
      ChainLenSnoc(chain[1..], s);
    }
  }

  lemma {:induction false} ConsumeFits(mem: Memory, chain: seq<Slot>, n: nat)
    requires Fits(mem, chain)
    ensures Fits(mem, Consume(chain, n).0)
    decreases |chain|
  {
    if n != 0 && chain != [] && Readable(chain[0]) <= n {
      ConsumeFits(mem, chain[1..], n - Readable(chain[0]));
    }
  }

  /** Consuming `n` bytes removes the first `n` bytes of the chain, or all of them. */
  lemma {:induction false} ConsumeDropsBytes(mem: Memory, chain: seq<Slot>, n: nat)
    requires Fits(mem, chain)
    ensures SlotBytes(mem, Consume(chain, n).0) == SlotBytes(mem, chain)[Min(n, |SlotBytes(mem, chain)|)..]
    decreases |chain|
  {
    if n == 0 || chain == [] {
    } else if Readable(chain[0]) <= n {
      ConsumeDropsBytes(mem, chain[1..], n - Readable(chain[0]));
      DropPast(SlotData(mem, chain[0]), SlotBytes(mem, chain[1..]), n);
    } else {
      CutHead(mem, chain, n);
    }
  }

  lemma DropPast(a: seq<byte>, b: seq<byte>, n: nat)
    requires |a| <= n
    ensures (a + b)[Min(n, |a + b|)..] == b[Min(n - |a|, |b|)..]
  {
  }

  lemma DropWithin(a: seq<byte>, b: seq<byte>, n: nat)
    requires n <= |a|
    ensures (a + b)[n..] == a[n..] + b
  {
  }

  lemma CutHead(mem: Memory, chain: seq<Slot>, n: nat)
    requires Fits(mem, chain) && chain != [] && n < Readable(chain[0])
    ensures SlotBytes(mem, [chain[0].(head := chain[0].head + n)] + chain[1..]) == SlotBytes(mem, chain)[n..]
  {
    var cut := [chain[0].(head := chain[0].head + n)] + chain[1..];
    assert cut[1..] == chain[1..];
    assert SlotData(mem, cut[0]) == SlotData(mem, chain[0])[n..];
    DropWithin(SlotData(mem, chain[0]), SlotBytes(mem, chain[1..]), n);
  }

  lemma IdxCons(s: Slot, rest: seq<Slot>)
    ensures Idx([s] + rest) == [s.idx] + Idx(rest)
  {
  }

  /** A chunk that is consumed whole goes before those given back after it. */
  lemma SplitCons(s: Slot, chain: seq<Slot>, rest: seq<Slot>, freed: seq<Slot>)
    requires Idx(chain) == Idx(freed) + Idx(rest)
    ensures Idx([s] + chain) == Idx([s] + freed) + Idx(rest)
  {
    IdxCons(s, chain);
    IdxCons(s, freed);
    assert [s.idx] + (Idx(freed) + Idx(rest)) == ([s.idx] + Idx(freed)) + Idx(rest);
  }

  /** The chunks given back and the chunks kept are the chunks there were, in order. */
  lemma {:induction false} ConsumeSplits(chain: seq<Slot>, n: nat)
    ensures var (rest, freed) := Consume(chain, n); Idx(chain) == Idx(freed) + Idx(rest)
    decreases |chain|
  {
    assert Idx([]) == [];
    if n != 0 && chain != [] {
      assert chain == [chain[0]] + chain[1..];
      if Readable(chain[0]) <= n {
        var (rest, freed) := Consume(chain[1..], n - Readable(chain[0]));
        ConsumeSplits(chain[1..], n - Readable(chain[0]));
        SplitCons(chain[0], chain[1..], rest, freed);
      } else {
        IdxCons(chain[0], chain[1..]);
        IdxCons(chain[0].(head := chain[0].head + n), chain[1..]);
      }
    }
  }

  /** The chain only gets shorter, and no exhausted chunk is left in it. */
  lemma {:induction false} ConsumeShrinks(chain: seq<Slot>, n: nat)
    requires Unread(chain)
    ensures var rest := Consume(chain, n).0;
      |rest| <= |chain| && ChainLen(rest) <= ChainLen(chain) && Unread(rest)
    decreases |chain|
  {
    if n == 0 || chain == [] {
    } else if Readable(chain[0]) <= n {
      ConsumeShrinks(chain[1..], n - Readable(chain[0]));
    } else {
      assert Consume(chain, n).0[1..] == chain[1..];
    }
  }

  /** Writing to a chunk that is not in the list does not change what the list holds. */
  lemma {:induction false} WriteElsewhere(mem: Memory, now: Memory, slots: seq<Slot>)
    requires |now| == |mem|
    requires forall k :: 0 <= k < |slots| && slots[k].idx < |mem| ==> now[slots[k].idx] == mem[slots[k].idx]
    ensures SlotBytes(now, slots) == SlotBytes(mem, slots)
  {
    if slots != [] {
      assert slots[0].idx < |mem| ==> now[slots[0].idx] == mem[slots[0].idx];
      WriteElsewhere(mem, now, slots[1..]);
    }
  }
}
