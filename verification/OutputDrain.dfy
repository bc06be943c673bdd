/** When the output queue drains.  The kernel makes progress on every batch that carries
    bytes; `retrieve` leaves empty fragments in place, so a long enough run of them can
    fill a whole batch and stop the queue for good. */
module OutputDrain {
  import opened Bytes
  import opened SendQueues
  import opened Connections
  import opened Peers

  /** A result the kernel may give: at least one byte of a batch that has any. */
  predicate Progress(batch: seq<seq<byte>>, res: nat) {
    res <= |Flatten(batch)| && (Flatten(batch) != [] ==> 1 <= res)
  }

  /** The connection after a series of write completions without new data. */
  function Complete(c: Conn, results: seq<nat>): Conn
    decreases |results|
  {
    if results == [] then c else Complete(OnWrite(c, results[0]).c, results[1..])
  }

  predicate Schedule(c: Conn, results: seq<nat>)
    decreases |results|
  {
    results != [] ==> Progress(c.w.batch, results[0]) && Schedule(OnWrite(c, results[0]).c, results[1..])
  }

  /** A write is in flight with a prefix of the queue, no larger than a batch may be. */
  ghost predicate InFlight(c: Conn) {
    && 1 <= c.cfg.maxSlices && c.w.q.cur <= c.cfg.maxSlices && c.w.q.cur <= |c.w.q.frags|
    && c.w.batch == c.w.q.frags[..c.w.q.cur]
  }

  /** The `max` fragments from `i` on are empty, and fragment `j` behind them is not. */
  ghost predicate BlockedAt(frags: seq<seq<byte>>, max: nat, i: nat, j: nat) {
    && i + max <= j < |frags| && frags[j] != []
    && forall k :: i <= k < i + max ==> frags[k] == []
  }

  /** A run of `max` empty fragments stands before some byte. */
  ghost predicate Blocked(frags: seq<seq<byte>>, max: nat) {
    exists i, j :: BlockedAt(frags, max, i, j)
  }

  lemma NonEmptyPart(f: seq<seq<byte>>, j: nat)
    requires j < |f| && f[j] != []
    ensures Flatten(f) != []
  {
    FlattenSplit(f, j);
  }

  lemma {:induction false} AllEmpty(f: seq<seq<byte>>)
    requires forall k :: 0 <= k < |f| ==> f[k] == []
    ensures Flatten(f) == []
  {
    if f != [] { AllEmpty(f[1..]); }
  }

  /** Waking the writer leaves the queue alone. */
  lemma SendingOn(c: Conn, ok: bool)
    ensures var d := WriteMore(c, ok).c;
      && d.cfg == c.cfg && d.w.q.frags == c.w.q.frags
      && (Flatten(c.w.q.frags) != [] ==> d.w.batch == BatchOf(c.w.q, c.cfg.maxSlices) && d.w.q == AfterBatch(c.w.q, c.cfg.maxSlices))
  {
  }

  /** The effect of one completion on the queue. */
  lemma OneCompletion(c: Conn, res: nat)
    requires InFlight(c)
    ensures var d := OnWrite(c, res).c;
      && d.cfg == c.cfg && d.w.q.frags == Skip(c.w.q.frags, res)
      && (Flatten(d.w.q.frags) != [] ==> d.w.batch == BatchOf(SendQ(d.w.q.frags, 0), c.cfg.maxSlices) && InFlight(d))
  {
    SendingOn(c.(w := c.w.(q := SendQ(Skip(c.w.q.frags, res), 0))), c.w.holder);
  }

  // ----- A run of empty fragments stops the queue ------------------------------

  /** Skipping no more than the bytes of the first part leaves the second untouched. */
  lemma {:induction false} SkipConcat(a: seq<seq<byte>>, b: seq<seq<byte>>, n: nat)
    requires n <= |Flatten(a)|
    ensures Skip(a + b, n) == Skip(a, n) + b
    decreases |a|
  {
    if n != 0 {
      assert (a + b)[0] == a[0] && (a + b)[1..] == a[1..] + b;
      if |a[0]| <= n {
        SkipConcat(a[1..], b, n - |a[0]|);
      } else {
        assert [a[0][n..]] + (a[1..] + b) == ([a[0][n..]] + a[1..]) + b;
      }
    }
  }

  /** A batch that reaches into a blocking run has no bytes beyond the run's start. */
  lemma BatchBeforeRun(frags: seq<seq<byte>>, max: nat, i: nat, j: nat, k: nat)
    requires BlockedAt(frags, max, i, j) && k <= max && k <= |frags|
    ensures |Flatten(frags[..k])| <= |Flatten(frags[..i])|
  {
    if k <= i {
      FlattenSplit(frags[..i], k);
      assert frags[..i][..k] == frags[..k];
    } else {
      FlattenSplit(frags[..k], i);
      assert frags[..k][..i] == frags[..i];
      AllEmpty(frags[..k][i..]);
    }
  }

  /** Whatever stands before it, the run still blocks. */
  lemma ShiftRun(frags: seq<seq<byte>>, now: seq<seq<byte>>, max: nat, i: nat, j: nat, h: nat)
    requires BlockedAt(frags, max, i, j)
    requires |now| == h + |frags| - i && forall k :: i <= k < |frags| ==> now[h + (k - i)] == frags[k]
    ensures BlockedAt(now, max, h, h + (j - i))
  {
    forall k | h <= k < h + max ensures now[k] == [] {
      assert now[h + ((k - h + i) - i)] == frags[k - h + i];
    }
  }

  /** Skipping bytes that stand before the run leaves it in place. */
  lemma SkipBeforeRun(frags: seq<seq<byte>>, max: nat, i: nat, j: nat, n: nat)
    requires BlockedAt(frags, max, i, j) && n <= |Flatten(frags[..i])|
    ensures Blocked(Skip(frags, n), max)
  {
    var front, run := frags[..i], frags[i..];
    assert frags == front + run;
    SkipConcat(front, run, n);
    var h := |Skip(front, n)|;
    ShiftRun(frags, Skip(front, n) + run, max, i, j, h);
    assert BlockedAt(Skip(frags, n), max, h, h + (j - i));
  }

  lemma StillBlocked(c: Conn, res: nat)
    requires InFlight(c) && Progress(c.w.batch, res) && Blocked(c.w.q.frags, c.cfg.maxSlices)
    ensures Blocked(Skip(c.w.q.frags, res), c.cfg.maxSlices)
  {
    var i: nat, j: nat :| BlockedAt(c.w.q.frags, c.cfg.maxSlices, i, j);
    BatchBeforeRun(c.w.q.frags, c.cfg.maxSlices, i, j, c.w.q.cur);
    SkipBeforeRun(c.w.q.frags, c.cfg.maxSlices, i, j, res);
  }

  lemma {:induction false} BlockedForever(c: Conn, results: seq<nat>)
    requires InFlight(c) && Schedule(c, results) && Blocked(c.w.q.frags, c.cfg.maxSlices)
    ensures Flatten(Complete(c, results).w.q.frags) != []
    decreases |results|
  {
    if results == [] {
      BlockedHasBytes(c.w.q.frags, c.cfg.maxSlices);
    } else {
      StillBlocked(c, results[0]);
      BlockedHasBytes(Skip(c.w.q.frags, results[0]), c.cfg.maxSlices);
      OneCompletion(c, results[0]);
      BlockedForever(OnWrite(c, results[0]).c, results[1..]);
    }
  }

  lemma BlockedHasBytes(frags: seq<seq<byte>>, max: nat)
    requires Blocked(frags, max)
    ensures Flatten(frags) != []
  {
    var i: nat, j: nat :| BlockedAt(frags, max, i, j);
    NonEmptyPart(frags, j);
  }

  // ----- Otherwise it drains ---------------------------------------------------

  /** A full batch without bytes means that the queue is blocked at its head. */
  lemma EmptyBatchBlocks(frags: seq<seq<byte>>, max: nat)
    requires Flatten(frags) != []
    ensures Flatten(BatchOf(SendQ(frags, 0), max)) == [] ==> Blocked(frags, max)
  {
    var k := Min(max, |frags|);
    assert BatchOf(SendQ(frags, 0), max) == frags[..k];
    if Flatten(frags[..k]) == [] {
      EmptyParts(frags[..k]);
      var j := SomePart(frags);
      assert forall x :: 0 <= x < k ==> frags[x] == frags[..k][x] == [];
      assert BlockedAt(frags, max, 0, j);
    }
  }

  lemma {:induction false} SomePart(f: seq<seq<byte>>) returns (j: nat)
    requires Flatten(f) != []
    ensures j < |f| && f[j] != []
  {
    if f[0] != [] { j := 0; } else { j := SomePart(f[1..]); j := j + 1; }
  }

  lemma {:induction false} EmptyParts(f: seq<seq<byte>>)
    requires Flatten(f) == []
    ensures forall k :: 0 <= k < |f| ==> f[k] == []
  {
    if f != [] {
      EmptyParts(f[1..]);
      assert forall k :: 1 <= k < |f| ==> f[k] == f[1..][k - 1];
    }
  }

  /** Skipping bytes yields a suffix; the cut fragment, if any, keeps a byte. */
  lemma {:induction false} SkipIsSuffix(frags: seq<seq<byte>>, n: nat)
    ensures var now := Skip(frags, n);
      && |now| <= |frags|
      && forall k :: 0 <= k < |now| ==> (now[k] == [] ==> frags[|frags| - |now| + k] == [])
    ensures var now := Skip(frags, n);
      forall k :: 0 <= k < |now| ==> (now[k] != [] ==> frags[|frags| - |now| + k] != [])
    decreases |frags|
  {
    if n == 0 || frags == [] {
    } else if |frags[0]| <= n {
      SkipIsSuffix(frags[1..], n - |frags[0]|);
      var now := Skip(frags, n);
      forall k | 0 <= k < |now|
        ensures now[k] == [] <==> frags[|frags| - |now| + k] == []
      {
        assert frags[1..][|frags| - 1 - |now| + k] == frags[|frags| - |now| + k];
      }
    }
  }

  lemma StillUnblocked(frags: seq<seq<byte>>, max: nat, n: nat)
    requires !Blocked(frags, max)
    ensures !Blocked(Skip(frags, n), max)
  {
    SkipIsSuffix(frags, n);
    var now := Skip(frags, n);
    var d := |frags| - |now|;
    forall i: nat, j: nat | BlockedAt(now, max, i, j) ensures BlockedAt(frags, max, d + i, d + j) {
      forall k | d + i <= k < d + i + max ensures frags[k] == [] { assert now[k - d] == []; }
    }
  }

  /** From a full batch, the pending bytes run out within as many completions. */
  lemma {:induction false} DrainsFromFull(c: Conn, results: seq<nat>)
    requires InFlight(c) && Schedule(c, results) && !Blocked(c.w.q.frags, c.cfg.maxSlices)
    requires Flatten(c.w.q.frags) != [] ==> Flatten(c.w.batch) != []
    requires |results| >= |Flatten(c.w.q.frags)|
    ensures Flatten(Complete(c, results).w.q.frags) == []
    decreases |results|
  {
    if Flatten(c.w.q.frags) == [] {
      StaysDry(c, results);
    } else {
      AfterOne(c, results[0]);
      var d := OnWrite(c, results[0]).c;
      if Flatten(d.w.q.frags) == [] { StaysDry(d, results[1..]); }
      else { DrainsFromFull(d, results[1..]); }
    }
  }

  lemma AfterOne(c: Conn, res: nat)
    requires InFlight(c) && Progress(c.w.batch, res) && !Blocked(c.w.q.frags, c.cfg.maxSlices)
    ensures var d := OnWrite(c, res).c;
      && |Flatten(d.w.q.frags)| == |Flatten(c.w.q.frags)| - res
      && !Blocked(d.w.q.frags, d.cfg.maxSlices) && d.cfg == c.cfg
      && (Flatten(d.w.q.frags) != [] ==> InFlight(d) && Flatten(d.w.batch) != [])
  {
    OneCompletion(c, res);
    FlattenSplit(c.w.q.frags, c.w.q.cur);
    SkipDropsBytes(c.w.q.frags, res);
    StillUnblocked(c.w.q.frags, c.cfg.maxSlices, res);
    var d := OnWrite(c, res).c;
    if Flatten(d.w.q.frags) != [] { EmptyBatchBlocks(d.w.q.frags, c.cfg.maxSlices); }
  }

  lemma {:induction false} StaysDry(c: Conn, results: seq<nat>)
    requires Flatten(c.w.q.frags) == []
    ensures Flatten(Complete(c, results).w.q.frags) == []
    decreases |results|
  {
    if results != [] {
      SkipDropsBytes(c.w.q.frags, results[0]);
      StaysDry(OnWrite(c, results[0]).c, results[1..]);
    }
  }

  /** The output drains under every schedule of one completion more than there are bytes
      pending, if and only if no run of `maxSlices` empty fragments stands before a byte. */
  lemma DrainsExactly(c: Conn)
    requires InFlight(c)
    ensures (forall results | Schedule(c, results) && |results| > |Flatten(c.w.q.frags)| ::
               Flatten(Complete(c, results).w.q.frags) == []) <==>
            !Blocked(c.w.q.frags, c.cfg.maxSlices)
  {
    if Blocked(c.w.q.frags, c.cfg.maxSlices) {
      var results := SomeSchedule(c, |Flatten(c.w.q.frags)| + 1);
      BlockedForever(c, results);
    } else {
      forall results | Schedule(c, results) && |results| > |Flatten(c.w.q.frags)|
        ensures Flatten(Complete(c, results).w.q.frags) == []
      {
        AfterOne(c, results[0]);
        var d := OnWrite(c, results[0]).c;
        if Flatten(d.w.q.frags) == [] { StaysDry(d, results[1..]); }
        else { DrainsFromFull(d, results[1..]); }
      }
    }
  }

  /** The kernel that always takes the whole batch. */
  ghost function SomeSchedule(c: Conn, n: nat): (r: seq<nat>)
    ensures |r| == n && Schedule(c, r)
    decreases n
  {
    if n == 0 then []
    else
      var res := |Flatten(c.w.batch)|;
      [res] + SomeSchedule(OnWrite(c, res).c, n - 1)
  }

  // ----- A coroutine that stops its own output --------------------------------------

  function Nothing(n: nat): (r: seq<seq<byte>>)
    ensures |r| == n && forall k :: 0 <= k < n ==> r[k] == []
  {
    seq(n, _ => [])
  }

  /** A new connection whose coroutine has sent the empty string `n` times. */
  function Muttering(cfg: Config, n: nat): Turn {
    if n == 0 then Establish(NewPeer(cfg)) else CoSend(Muttering(cfg, n - 1).p, KReturn, [])
  }

  /** The send side then: every empty string is a fragment, and only the first is in flight. */
  ghost predicate Muttered(t: Turn, cfg: Config, n: nat) {
    && t.mode == In(KReturn) && !t.fault && t.p.c.cfg == cfg && !t.p.c.closing
    && t.p.c.w == WriteContext(SendQ(Nothing(n), Min(n, 1)), Nothing(Min(n, 1)), n > 0, n > 0, false, false)
    && (t.p.e.tx.wr == WriteNone <==> n == 0)
  }

  lemma {:induction false} MutteringIs(cfg: Config, n: nat)
    requires cfg.maxSlices >= 1
    ensures Muttered(Muttering(cfg, n), cfg, n)
    decreases n
  {
    if n == 0 {
      assert Nothing(0) == [];
    } else {
      MutteringIs(cfg, n - 1);
      var w := Muttering(cfg, n - 1).p.c.w;
      assert w.q.frags + [[]] == Nothing(n);
      AllEmpty(Nothing(n));
      if n == 1 { assert BatchOf(SendQ(Nothing(1), 0), cfg.maxSlices) == Nothing(1); }
    }
  }

  /** `maxSlices` empty strings, and then a byte. */
  function Stuck(cfg: Config): Turn { CoSend(Muttering(cfg, cfg.maxSlices).p, KReturn, [1]) }

  lemma StuckIs(cfg: Config)
    requires cfg.maxSlices >= 1 && cfg.outHighWater >= 1
    ensures var t := Stuck(cfg);
      && t.mode == In(KReturn) && !t.fault && t.p.c.cfg == cfg
      && t.p.c.w.q == SendQ(Nothing(cfg.maxSlices) + [[1]], 1) && t.p.c.w.batch == Nothing(1)
  {
    var n := cfg.maxSlices;
    MutteringIs(cfg, n);
    AllEmpty(Nothing(n));
    FlattenSnoc(Nothing(n), [1]);
  }

  /** The coroutine goes on and thinks that it has sent the byte, but under no schedule of
      completions does the byte go out. */
  lemma EmptyFragmentsBlock(cfg: Config, results: seq<nat>)
    requires cfg.maxSlices >= 1 && cfg.outHighWater >= 1 && Schedule(Stuck(cfg).p.c, results)
    ensures Stuck(cfg).mode == In(KReturn) && !Stuck(cfg).fault
    ensures Flatten(Complete(Stuck(cfg).p.c, results).w.q.frags) != []
  {
    StuckIs(cfg);
    var c, max := Stuck(cfg).p.c, cfg.maxSlices;
    assert c.w.q.frags[..1] == Nothing(1);
    assert BlockedAt(c.w.q.frags, max, 0, max);
    BlockedForever(c, results);
  }
}
