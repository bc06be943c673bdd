/** `TcpConnection` with its two contexts as an object.  Each method is one stretch of code
    between two points where the business coroutine may run, and is proved to do to the
    object what the function of the same stretch does to its value. */
module TcpConnections {
  import opened Bytes
  import opened SendQueues
  import opened Connections
  import opened Chains
  import opened ChunkPools
  import opened InputBuffers

  function SettledBatch(c: Conn, res: int): Conn {
    if res < 0 then c.(w := c.w.(sending := false))
    else c.(w := c.w.(q := SendQ(Skip(c.w.q.frags, res), 0)))
  }

  function Errored(c: Conn): Conn { c.(w := c.w.(error := true)) }

  function FailedWrite(c: Conn): Outcome {
    var d := c.(w := c.w.(sending := false));
    if d.w.handle then Outcome(d, NONE, Resume(KWriteFatal), d.w.holder)
    else FinishWriteFatal(d).(ok := d.w.holder)
  }

  /** A write completion fails, or settles the batch and goes on. */
  lemma OnWriteSplits(c: Conn, res: int)
    ensures OnWrite(c, res) == if WriteFatal(res) then FailedWrite(Errored(c))
                               else WriteMore(SettledBatch(c, res), c.w.holder)
  {
  }

  function SendAwaited(c: Conn, data: seq<byte>): Outcome {
    var o := SendInLoop(c, data);
    if OverOut(o.c.cfg, o.c.w.q) then o.(c := SendSuspend(o.c)) else o
  }

  class TcpConnection {
    const cfg: Config
    // read_context_
    var status: ReadStatus
    var readHolder: bool
    var readHandle: bool
    var readError: bool
    const input: InputChainBuffer
    // write_context_
    const output: SendQueue
    var tempData: seq<seq<byte>>
    var sending: bool
    var writeHolder: bool
    var writeHandle: bool
    var writeError: bool
    // the connection itself
    var closing: bool
    var task: bool

    ghost predicate Valid()
      reads this, input, input.pool, input.pool.ring, output
    {
      && input.Valid() && output.Valid()
    }

    ghost function ReadView(): ReadContext
      reads this, input, input.pool
    {
      ReadContext(status, readHolder, readHandle, readError, input.View())
    }

    ghost function WriteView(): WriteContext
      requires output.Valid()
      reads this, output
    {
      WriteContext(output.View(), tempData, sending, writeHolder, writeHandle, writeError)
    }

    ghost function View(): Conn
      requires output.Valid()
      reads this, input, input.pool, output
    {
      Conn(cfg, ReadView(), WriteView(), closing, task)
    }

    constructor (cfg: Config, pool: ChunkPool)
      requires pool.Valid()
      ensures Valid() && View() == NewConn(cfg)
      ensures input.pool == pool && fresh(input) && fresh(output)
    {
      this.cfg := cfg;
      status, readHolder, readHandle, readError := Stopped, false, false, false;
      tempData, sending, writeHolder, writeHandle, writeError := [], false, false, false, false;
      closing, task := false, false;
      input := new InputChainBuffer(pool);
      output := new SendQueue();
    }

    predicate OverLoadIn()
      requires input.Valid()
      reads this, input, input.pool, input.pool.ring
      ensures OverLoadIn() == OverIn(cfg, input.View())
    {
      input.totalLen > cfg.highWater || input.chunks > cfg.highWaterChunks
    }

    predicate OverLoadOut()
      requires output.Valid()
      reads this, output
      ensures OverLoadOut() == OverOut(cfg, output.View())
    {
      output.totalLen > cfg.outHighWater
    }

    // ----- Closing -----------------------------------------------------------

    method Close() returns (fx: Fx)
      requires Valid()
      modifies this
      ensures Valid() && (View(), fx) == HandleClose(old(View()))
      ensures closing && (!old(closing) ==> !readHandle && !writeHandle)
      ensures fx.close == fx.callback == !old(closing)
      ensures fx.destroy == (old(task) && (old(closing) || old(readHandle) || old(writeHandle))) && task == (old(task) && !fx.destroy)
    {
      fx := NONE;
      if !closing {
        closing := true;
        fx := fx.(close := true);
        if readHandle || writeHandle {
          fx := fx.(destroy := task);
          task := false;
        }
        readHandle, writeHandle := false, false;
        fx := fx.(callback := true);
      } else {
        fx := fx.(destroy := task);
        task := false;
      }
    }

    /** What follows the resumption on a fatal read. */
    method AfterFatalRead() returns (fx: Fx)
      requires Valid()
      modifies this
      ensures Valid() && View() == FinishReadFatal(old(View())).c && fx == FinishReadFatal(old(View())).fx
    {
      fx := Close();
      readHolder := false;
      status := Stopped;
    }

    /** What follows the resumption on a fatal write. */
    method AfterFatalWrite() returns (fx: Fx)
      requires Valid()
      modifies this
      ensures Valid() && View() == FinishWriteFatal(old(View())).c && fx == FinishWriteFatal(old(View())).fx
    {
      fx := Close();
      writeHolder := false;
      sending := false;
    }

    // ----- Reading -----------------------------------------------------------

    method SubmitReadRequest()
      requires Valid()
      modifies this`readHolder, this`status
      ensures Valid() && View() == SubmitRead(old(View()))
    {
      readHolder := true;
      status := Reading;
    }

    /** `handleError` of the read context: end of stream and all errors but three are fatal. */
    method HandleReadError(res: int) returns (needClose: bool)
      requires Valid() && res <= 0
      modifies this`readError
      ensures Valid() && needClose == ReadFatal(res) && readError == (old(readError) || needClose)
      ensures needClose <==> res != -ENOBUFS && res != -EAGAIN && res != -ECANCELED
    {
      if res == 0 {
        readError := true;
        return true;
      }
      var err := -res;
      if err == EPIPE || err == ECONNRESET {
        readError := true;
        return true;
      } else if err == ENOBUFS {
        return false;
      } else if err == EAGAIN {
        return false;
      } else if err == ENOTCONN || err == EBADF {
        readError := true;
        return true;
      } else if err == ECANCELED {
        return false;
      }
      readError := true;
      return true;
    }

    /** The completion's data or error; a cancel is asked for when a mark is passed. */
    method TakeCompletion(cqe: Cqe) returns (fx: Fx, needClose: bool)
      requires Valid() && CqeFits(cqe)
      modifies this`status, this`readError, input, input.pool`chunks, input.pool`home
      ensures Valid() && (View(), fx) == TakeRead(old(View()), cqe) && needClose == ReadFatal(cqe.res)
      ensures Untouched(old(input.pool.chunks), old(input.pool.home), input.pool.chunks, input.pool.home, input)
      ensures input.Mem() == old(input.Mem())
    {
      fx, needClose := NONE, false;
      if cqe.res <= 0 {
        SameUntouched(input.pool.chunks, input.pool.home, input);
        needClose := HandleReadError(cqe.res);
      } else {
        input.Append(cqe.idx, cqe.res);
        if OverLoadIn() && status != Canceling {
          fx := fx.(cancel := true);
          status := Canceling;
        }
      }
    }

    /** The kernel names a chunk it took from the ring and filled within its size. */
    ghost predicate CqeFits(cqe: Cqe)
      reads input.pool
    {
      cqe.res > 0 ==>
        && cqe.idx < |input.pool.chunks| && cqe.idx < |input.pool.home|
        && input.pool.home[cqe.idx] == Taken && cqe.res <= input.pool.chunkSize
    }

    /** The common end of the read completion. */
    method WakeWaitingReader(fx: Fx) returns (next: Next)
      requires Valid()
      modifies this`readHandle
      ensures Valid() && Outcome(View(), fx, next, true) == WakeReader(old(View()), fx, true)
    {
      if !readHandle { return Finished; }
      readHandle := false;
      return Resume(KReturn);
    }

    /** The rest of the handler when the multishot is over. */
    method EndMultishot(taken: Fx, needClose: bool) returns (fx: Fx, next: Next)
      requires Valid()
      modifies this
      ensures Valid() && Outcome(View(), fx, next, true) == EndedRead(old(View()), taken, needClose, true)
    {
      fx := taken;
      if status == Canceling && !needClose {
        status := Stopped;
        readHolder := false;
        next := WakeWaitingReader(fx);
      } else if status == Reading && !needClose {
        SubmitReadRequest();
        fx := fx.(read := true);
        next := WakeWaitingReader(fx);
      } else if readHandle {
        next := Resume(KReadFatal);
      } else {
        fx := AfterFatalRead();
        next := Finished;
      }
    }

    /** The second half of the handler. */
    method AfterTaking(taken: Fx, more: bool, needClose: bool) returns (fx: Fx, next: Next)
      requires Valid()
      modifies this
      ensures Valid()
      ensures Outcome(View(), fx, next, true) ==
              if more then WakeReader(old(View()), taken, true) else EndedRead(old(View()), taken, needClose, true)
    {
      if more {
        fx := taken;
        next := WakeWaitingReader(fx);
      } else {
        fx, next := EndMultishot(taken, needClose);
      }
    }

    method OnReadCompletion(cqe: Cqe) returns (fx: Fx, next: Next)
      requires Valid() && CqeFits(cqe) && OnRead(View(), cqe).ok
      modifies this, input, input.pool`chunks, input.pool`home
      ensures Valid()
      ensures Outcome(View(), fx, next, true) == OnRead(old(View()), cqe)
      ensures Untouched(old(input.pool.chunks), old(input.pool.home), input.pool.chunks, input.pool.home, input)
      ensures input.Mem() == old(input.Mem())
    {
      var taken, needClose := TakeCompletion(cqe);
      fx, next := AfterTaking(taken, cqe.more, needClose);
    }

    // ----- Writing -----------------------------------------------------------

    method FlushOutput()
      requires Valid() && FlushOk(View())
      modifies this`tempData, this`sending, output
      ensures Valid() && View() == Flush(old(View()))
    {
      tempData := output.GetBatchFragment(cfg.maxSlices);
      sending := true;
    }

    method SendNow(data: seq<byte>) returns (fx: Fx)
      requires Valid() && SendInLoop(View(), data).ok
      modifies this`tempData, this`sending, this`writeHolder, output
      ensures Valid() && View() == SendInLoop(old(View()), data).c && fx == SendInLoop(old(View()), data).fx
    {
      output.AppendData(data);
      if sending { return NONE; }
      writeHolder := true;
      FlushOutput();
      return NONE.(write := true);
    }

    /** The second half of the write completion. */
    method ContinueSending() returns (fx: Fx, next: Next)
      requires Valid() && WriteMore(View(), true).ok
      modifies this, output
      ensures Valid() && Outcome(View(), fx, next, true) == WriteMore(old(View()), true)
    {
      fx := NONE;
      if output.totalLen > 0 {
        FlushOutput();
        fx := fx.(write := true);
      } else {
        sending := false;
        writeHolder := false;
      }
      if writeHandle && !OverLoadOut() {
        writeHandle := false;
        return fx, Resume(KReturn);
      }
      return fx, Finished;
    }

    /** `handleError` of the write context: all errors but three are fatal. */
    method HandleWriteError(res: int) returns (needClose: bool)
      requires Valid() && res < 0
      modifies this`writeError
      ensures Valid() && needClose == WriteFatal(res)
      ensures needClose <==> res != -EAGAIN && res != -ENOBUFS && res != -EINTR
      ensures View() == if needClose then Errored(old(View())) else old(View())
    {
      var err := -res;
      if err == EPIPE || err == ECONNRESET {
        writeError := true;
        return true;
      } else if err == EAGAIN || err == ENOBUFS {
        return false;
      } else if err == EINTR {
        return false;
      } else if err == EBADF || err == ENOTCONN {
        writeError := true;
        return true;
      }
      writeError := true;
      return true;
    }

    /** The fatal branch of the write completion, once the error is recorded. */
    method FailWrite() returns (fx: Fx, next: Next)
      requires Valid() && writeHolder
      modifies this
      ensures Valid() && Outcome(View(), fx, next, true) == FailedWrite(old(View()))
    {
      sending := false;
      if writeHandle { return NONE, Resume(KWriteFatal); }
      fx := AfterFatalWrite();
      next := Finished;
    }

    /** The first half otherwise: the bytes sent leave the queue; after an error none do. */
    method SettleBatch(res: int)
      requires Valid()
      modifies this`sending, output
      ensures Valid() && View() == SettledBatch(old(View()), res)
    {
      if res < 0 {
        sending := false;
      } else {
        output.Retrieve(res);
      }
    }

    method OnWriteCompletion(res: int) returns (fx: Fx, next: Next)
      requires Valid() && OnWrite(View(), res).ok
      modifies this, output
      ensures Valid() && Outcome(View(), fx, next, true) == OnWrite(old(View()), res)
    {
      OnWriteSplits(View(), res);
      if res < 0 {
        var needClose := HandleWriteError(res);
        if needClose {
          fx, next := FailWrite();
          return;
        }
      }
      SettleBatch(res);
      fx, next := ContinueSending();
    }

    // ----- What the coroutine calls ------------------------------------------

    /** `Established`: the task is stored and started. */
    method Established()
      requires Valid()
      modifies this`task
      ensures Valid() && View() == old(View()).(task := true)
    {
      task := true;
    }

    /** `co_await send(data)` on the loop thread: sends, and sleeps above the mark. */
    method AwaitSend(data: seq<byte>) returns (fx: Fx)
      requires Valid() && SendInLoop(View(), data).ok
      modifies this`tempData, this`sending, this`writeHolder, this`writeHandle, output
      ensures Valid() && View() == SendAwaited(old(View()), data).c && fx == SendAwaited(old(View()), data).fx
      ensures output.totalLen == old(output.totalLen) + |data|
      ensures writeHandle == (old(writeHandle) || output.totalLen > cfg.outHighWater)
    {
      FlattenSnoc(output.frags, data);
      fx := SendNow(data);
      if OverLoadOut() { writeHandle := true; }
    }

    /** `read`: the coroutine takes up to `size` bytes from the input. */
    method ReadBytes(size: nat) returns (bytes: seq<byte>)
      requires Valid()
      modifies input, input.pool, input.pool.ring
      ensures Valid()
      ensures View() == (var c := old(View()); c.(r := c.r.(chain := Consume(c.r.chain, size).0)))
      ensures input.pool.ring.fifo == old(input.pool.ring.fifo) + Idx(Consume(old(input.View()), size).1)
      ensures Untouched(old(input.pool.chunks), old(input.pool.home), input.pool.chunks, input.pool.home, input)
      ensures input.Mem() == old(input.Mem())
      ensures |bytes| == Min(size, old(input.totalLen))
      ensures bytes + SlotBytes(input.Mem(), input.View()) == old(SlotBytes(input.Mem(), input.View()))
    {
      bytes := input.Remove(size);
    }

    /** `await_ready` of a receive on the loop thread. */
    method IsRecvReady() returns (ready: bool)
      requires Valid()
      ensures ready == RecvReady(View())
    {
      ready := closing || input.totalLen != 0;
    }

    /** `await_suspend` of a receive on the loop thread. */
    method SuspendInRecv() returns (fx: Fx)
      requires Valid()
      modifies this
      ensures Valid() && View() == RecvSuspend(old(View())).c && fx == RecvSuspend(old(View())).fx
    {
      readHandle := true;
      fx := NONE;
      if status == Stopped {
        SubmitReadRequest();
        fx := fx.(read := true);
      }
    }
  }
}
