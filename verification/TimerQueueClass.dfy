/** The timer queue as an object, proved against the runs of the machine: every method
    takes the ghost machine through the actions it performs. */
module TimerQueueObjects {
  import opened TimerQueues
  import opened TimerRuns
  import opened TimerTheorems
  import opened TimerTicks
  import opened TimerAdditions

  /** The first `i` callbacks of the script lead from `was` to `now`. */
  ghost predicate LeadsTo(was: Machine, batch: seq<nat>, script: seq<seq<Op>>, i: nat, now: Machine) {
    Inv(was) && was.phase.Calling? && was.phase.pos == 0 && was.phase.batch == batch && now == RunCalls(was, script, i)
  }

  class TimerQueue {
    var mem: map<nat, Timer>
    var timerList: seq<Node>
    var active: set<Id>
    var canceling: set<Id>
    var running: bool
    var sequence: nat
    ghost var m: Machine

    ghost predicate Valid()
      reads this
    {
      Inv(m) && m.q == View() && m.next == sequence
    }

    ghost function View(): TimerQ
      reads this
    {
      TimerQ(mem, timerList, active, canceling, running)
    }

    /** The object has followed the machine to `n`. */
    ghost predicate At(n: Machine)
      reads this
    {
      Valid() && m == n
    }

    constructor ()
      ensures Valid() && m == START
    {
      mem, timerList, active, canceling, running, sequence := map[], [], {}, {}, false, 0;
      m := START;
      new;
      StartInv();
    }

    /** `new Timer(...)`: takes the next sequence number. */
    method CreateTimer(addr: nat, when: int, interval: nat, repeat: bool) returns (id: Id)
      requires Valid() && addr !in mem
      modifies this
      ensures Valid() && m == Step(old(m), Create(addr, when, interval, repeat))
      ensures id == Id(addr, old(sequence)) && mem == old(mem)[addr := Timer(old(sequence), when, interval, repeat)]
    {
      mem := mem[addr := Timer(sequence, when, interval, repeat)];
      id := Id(addr, sequence);
      sequence := sequence + 1;
      StepKeeps(m, Create(addr, when, interval, repeat));
      m := Step(m, Create(addr, when, interval, repeat));
    }

    /** `insert`; tells whether the earliest expiration changed. */
    method InsertTimer(addr: nat) returns (earlier: bool)
      requires addr in mem && Sorted(timerList)
      modifies this`timerList, this`active
      ensures View() == Insert(old(View()), addr)
      ensures earlier <==> forall n <- old(timerList) :: mem[addr].expiration < n.key.when
    {
      forall j: nat | j < |timerList| ensures timerList[0].key.when <= timerList[j].key.when {
        if j > 0 { assert Before(timerList, 0, j); }
      }
      var key := KeyOf(mem[addr]);
      earlier := timerList == [] || key.when < timerList[0].key.when;
      timerList := MapPut(timerList, Node(key, addr));
      active := active + {Id(addr, key.seqno)};
    }

    method AddTimerInLoop(addr: nat)
      requires Valid() && addr in m.limbo && !m.phase.Resetting?
      modifies this
      ensures Valid() && m == Step(old(m), File(addr)) && mem == old(mem) && Listed(View(), addr)
    {
      StepKeeps(m, File(addr));
      FileExact(m, addr);
      m := Step(m, File(addr));
      var earlier := InsertTimer(addr);
    }

    method EraseTimer(id: Id) returns (found: bool)
      requires id in active ==> id.addr in mem
      modifies this`mem, this`timerList, this`active
      ensures found <==> id in old(active)
      ensures View() == if found then Erase(old(View()), id) else old(View())
    {
      if id in active {
        var key := KeyOf(mem[id.addr]);
        active := active - {id};
        timerList := MapErase(timerList, key);
        mem := mem - {id.addr};
        return true;
      }
      return false;
    }

    method CancelTimerInLoop(id: Id)
      requires Valid() && !m.phase.Resetting?
      modifies this
      ensures Valid() && m == Step(old(m), CancelId(id))
    {
      assert ActiveAt(m.q, id);
      StepKeeps(m, CancelId(id));
      m := Step(m, CancelId(id));
      var found := EraseTimer(id);
      if !found && running {
        canceling := canceling + {id};
      }
    }

    /** Takes the expired front off both indexes. */
    method GetExpiredTimers(now: int) returns (batch: seq<nat>)
      requires Agrees(View())
      modifies this`timerList, this`active
      ensures batch == BatchAt(old(View()), now)
      ensures timerList == Begin(old(View()), now).list && active == Begin(old(View()), now).active
    {
      var end := Expired(timerList, now);
      batch := [];
      var i := 0;
      while i < end
        invariant 0 <= i <= end <= |timerList| && timerList == old(timerList)
        invariant batch == Addrs(timerList[..i])
        invariant forall id :: id in active <==> id in old(active) && !Gone(old(View()), i, id)
      {
        var n := timerList[i];
        assert n in timerList && FiledAt(old(View()), n);
        active := active - {Id(n.addr, mem[n.addr].seqno)};
        batch := batch + [n.addr];
        i := i + 1;
      }
      timerList := timerList[end..];
    }

    /** One operation of a callback. */
    method RunOperation(op: Op)
      requires Valid() && m.phase.Calling?
      modifies this
      ensures Valid() && m == RunOp(old(m), op)
    {
      match op {
        case OpAdd(addr, when, interval, repeat) =>
          if addr !in mem {
            var id := CreateTimer(addr, when, interval, repeat);
            AddTimerInLoop(addr);
          }
        case OpCancel(id) => CancelTimerInLoop(id);
      }
    }

    /** One turn of the body of a callback. */
    method RunNext(ops: seq<Op>, i: nat, ghost was: Machine)
      requires Inv(was) && was.phase.Calling? && i < |ops| && At(RunOps(was, ops, i))
      modifies this
      ensures At(RunOps(was, ops, i + 1))
    {
      OpsGoOn(was, ops, i);
      RunOperation(ops[i]);
    }

    /** The body of a callback. */
    method RunCallback(ops: seq<Op>)
      requires Valid() && m.phase.Calling?
      modifies this
      ensures Valid() && m == RunOps(old(m), ops, |ops|)
    {
      ghost var was := m;
      var i := 0;
      while i < |ops|
        invariant 0 <= i <= |ops|
        invariant At(RunOps(was, ops, i))
      {
        RunNext(ops, i, was);
        i := i + 1;
      }
    }

    /** One turn of the callback loop. */
    method CallNext(batch: seq<nat>, script: seq<seq<Op>>, i: nat, ghost was: Machine, ghost before: Machine)
      returns (ghost now: Machine)
      requires LeadsTo(was, batch, script, i, before) && At(before) && i < |batch|
      modifies this
      ensures LeadsTo(was, batch, script, i + 1, now) && At(now)
    {
      CallsGoOn(was, script, i);
      CallGoesOn(m, OpsOf(script, i));
      m := Step(m, Call);
      RunCallback(OpsOf(script, i));
      now := m;
    }

    /** The callback loop: runs the batch in order; the `i`-th callback does `script[i]`. */
    method RunBatch(batch: seq<nat>, script: seq<seq<Op>>)
      requires Valid() && m.phase.Calling? && m.phase.batch == batch && m.phase.pos == 0
      modifies this
      ensures Valid() && m == RunCalls(old(m), script, |batch|)
    {
      ghost var was, now := m, m;
      var i := 0;
      while i < |batch|
        invariant 0 <= i <= |batch|
        invariant LeadsTo(was, batch, script, i, now)
        invariant At(now)
      {
        now := CallNext(batch, script, i, was, now);
        i := i + 1;
      }
    }

    /** One turn of the loop in `reset`: re-arms or gives up one timer. */
    method ResetNextTimer(addr: nat, now: int)
      requires Valid() && m.phase.Resetting? && m.phase.now == now && Possible(m, ResetNext)
      requires addr == m.phase.batch[m.phase.pos]
      modifies this
      ensures Valid() && m == Step(old(m), ResetNext)
    {
      assert Batch(m)[0] == addr && addr in Batch(m);
      StepKeeps(m, ResetNext);
      m := Step(m, ResetNext);
      if mem[addr].repeat && Id(addr, mem[addr].seqno) !in canceling {
        mem := mem[addr := mem[addr].(expiration := now + mem[addr].interval)];
        var earlier := InsertTimer(addr);
      } else {
        mem := mem - {addr};
      }
    }

    /** `reset`: re-arms or gives up each timer of the batch; all others stay as they are. */
    method ResetTimers(batch: seq<nat>, now: int)
      requires Valid() && m.phase == Resetting(now, batch, 0)
      modifies this
      ensures Valid() && m == Resets(old(m), |batch|) && ResetSoFar(old(m), m, |batch|)
    {
      ghost var was := m;
      var i := 0;
      ResetsExact(was, 0);
      while i < |batch|
        invariant 0 <= i <= |batch|
        invariant Valid() && m == Resets(was, i) && ResetSoFar(was, m, i)
      {
        OneMoreReset(was, m, i);
        ResetNextTimer(batch[i], now);
        i := i + 1;
      }
    }

    /** The first part of `handleRead`: the batch, and the callback phase begins. */
    method BeginTick(now: int) returns (batch: seq<nat>)
      requires Valid() && Possible(m, Start(now))
      modifies this
      ensures Valid() && m == Step(old(m), Start(now)) && batch == BatchAt(old(View()), now)
    {
      StepKeeps(m, Start(now));
      batch := GetExpiredTimers(now);
      canceling := {};
      running := true;
      m := Step(m, Start(now));
    }

    /** The last part: the callback phase ends and the batch is reset. */
    method EndTick(batch: seq<nat>, now: int)
      requires Valid() && Possible(m, StartReset) && m.phase.batch == batch && m.phase.now == now
      modifies this
      ensures Valid() && m == Ended(old(m), |batch|)
    {
      StepKeeps(m, StartReset);
      running := false;
      m := Step(m, StartReset);
      ResetTimers(batch, now);
      StepKeeps(m, Stop);
      m := Step(m, Stop);
    }

    /** `handleRead`: one tick at time `now`, if anything has expired. */
    method HandleRead(now: int, script: seq<seq<Op>>)
      requires Valid() && m.phase.Rest?
      modifies this
      ensures Valid() && m.phase.Rest?
      ensures if BatchAt(old(View()), now) == [] then m == old(m)
              else m == Tick(old(m), now, script) && Ticked(old(m), m, now, script)
    {
      if timerList == [] || now < timerList[0].key.when { return; }
      TickExact(m, now, script);
      CalledTick(m, now, script);
      var batch := BeginTick(now);
      RunBatch(batch, script);
      EndTick(batch, now);
    }
  }
}
