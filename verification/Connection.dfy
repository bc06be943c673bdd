/** A TCP connection as a value: its `ReadContext`, `WriteContext` and the fields of
    `TcpConnection` itself, with one function for every stretch of code that runs
    without handing control to the business coroutine.

    A stretch returns what it asks of the event loop (`Fx`), whether it ends by resuming
    the coroutine and what is left to run afterwards (`Next`), and whether every
    assertion it passes holds (`ok`). */
module Connections {
  import opened Bytes
  import opened SendQueues

  // Linux error numbers that the two error handlers distinguish.
  const EINTR := 4
  const EBADF := 9
  const EAGAIN := 11
  const EPIPE := 32
  const ECONNRESET := 104
  const ENOBUFS := 105
  const ENOTCONN := 107
  const ECANCELED := 125

  /** A chunk in an input chain: its index and the part of it not yet read. */
  datatype Slot = Slot(idx: nat, head: nat, tail: nat)

  /** A completion of a multishot receive. */
  datatype Cqe = Cqe(res: int, more: bool, idx: nat)

  datatype ReadStatus = Stopped | Reading | Canceling

  datatype Config = Config(highWater: nat, highWaterChunks: nat, outHighWater: nat, maxSlices: nat)

  datatype ReadContext = ReadContext(
    status: ReadStatus, holder: bool, handle: bool, error: bool, chain: seq<Slot>)

  datatype WriteContext = WriteContext(
    q: SendQ, batch: seq<seq<byte>>, sending: bool, holder: bool, handle: bool, error: bool)

  datatype Conn = Conn(cfg: Config, r: ReadContext, w: WriteContext, closing: bool, task: bool)

  function NewConn(cfg: Config): Conn {
    Conn(cfg, ReadContext(Stopped, false, false, false, []),
         WriteContext(EMPTY, [], false, false, false, false), false, false)
  }

  /** Requests made to the event loop, the socket, the close callback and the task. */
  datatype Fx = Fx(read: bool, cancel: bool, write: bool, close: bool, callback: bool, destroy: bool)

  const NONE := Fx(false, false, false, false, false, false)

  /** What remains to be run after the coroutine has been resumed and has returned. */
  datatype Cont = KReturn | KReadFatal | KWriteFatal

  datatype Next = Finished | Resume(k: Cont)

  datatype Outcome = Outcome(c: Conn, fx: Fx, next: Next, ok: bool)

  // ----- Input chain ---------------------------------------------------------

  function ChainLen(chain: seq<Slot>): nat {
    if chain == [] then 0 else Readable(chain[0]) + ChainLen(chain[1..])
  }

  function Readable(s: Slot): nat {
    if s.head <= s.tail then s.tail - s.head else 0
  }

  /** Taking `n` bytes off the front: the chain left and the chunks given back. */
  function Consume(chain: seq<Slot>, n: nat): (r: (seq<Slot>, seq<Slot>)) {
    if n == 0 || chain == [] then (chain, [])
    else if Readable(chain[0]) <= n then
      var (rest, freed) := Consume(chain[1..], n - Readable(chain[0]));
      (rest, [chain[0]] + freed)
    else
      ([chain[0].(head := chain[0].head + n)] + chain[1..], [])
  }

  /** No chunk stays in a chain once it has been read. */
  ghost predicate Unread(chain: seq<Slot>) {
    forall k :: 0 <= k < |chain| ==> chain[k].head < chain[k].tail
  }

  predicate OverIn(cfg: Config, chain: seq<Slot>) {
    ChainLen(chain) > cfg.highWater || |chain| > cfg.highWaterChunks
  }

  predicate OverOut(cfg: Config, q: SendQ) {
    |Flatten(q.frags)| > cfg.outHighWater
  }

  // ----- Closing -------------------------------------------------------------

  function HandleClose(c: Conn): (r: (Conn, Fx)) {
    if !c.closing then
      var kill := c.r.handle || c.w.handle;
      (c.(closing := true, task := c.task && !kill,
          r := c.r.(handle := false), w := c.w.(handle := false)),
       NONE.(close := true, callback := true, destroy := kill && c.task))
    else
      (c.(task := false), NONE.(destroy := c.task))
  }

  function FinishReadFatal(c: Conn): Outcome {
    var (d, fx) := HandleClose(c);
    Outcome(d.(r := d.r.(holder := false, status := Stopped)), fx, Finished, true)
  }

  function FinishWriteFatal(c: Conn): Outcome {
    var (d, fx) := HandleClose(c);
    Outcome(d.(w := d.w.(holder := false, sending := false)), fx, Finished, true)
  }

  // ----- Reading -------------------------------------------------------------

  /** Which results of a receive end the connection. */
  predicate ReadFatal(res: int) {
    res <= 0 && -res !in {ENOBUFS, EAGAIN, ECANCELED}
  }

  function SubmitRead(c: Conn): Conn {
    c.(r := c.r.(holder := true, status := Reading))
  }

  /** The first half of the read completion: take the data or the error, and ask for a
      cancel when a high-water mark is passed. */
  function TakeRead(c: Conn, cqe: Cqe): (r: (Conn, Fx)) {
    if cqe.res <= 0 then
      (c.(r := c.r.(error := c.r.error || ReadFatal(cqe.res))), NONE)
    else
      var d := c.(r := c.r.(chain := c.r.chain + [Slot(cqe.idx, 0, cqe.res)]));
      if OverIn(d.cfg, d.r.chain) && d.r.status != Canceling
      then (d.(r := d.r.(status := Canceling)), NONE.(cancel := true))
      else (d, NONE)
  }

  /** The common end: wake a waiting reader. */
  function WakeReader(c: Conn, fx: Fx, ok: bool): Outcome {
    if c.r.handle then Outcome(c.(r := c.r.(handle := false)), fx, Resume(KReturn), ok)
    else Outcome(c, fx, Finished, ok)
  }

  /** The end of a multishot: stop, read on, or fail. */
  function EndedRead(c: Conn, fx: Fx, fatal: bool, ok: bool): Outcome {
    if c.r.status == Canceling && !fatal then
      WakeReader(c.(r := c.r.(status := Stopped, holder := false)), fx, ok)
    else if c.r.status == Reading && !fatal then
      WakeReader(SubmitRead(c), fx.(read := true), ok)
    else if c.r.handle then Outcome(c, fx, Resume(KReadFatal), ok)
    else FinishReadFatal(c).(ok := ok)
  }

  function OnRead(c: Conn, cqe: Cqe): Outcome {
    var ok := c.r.holder && c.r.status != Stopped;
    var (d, fx) := TakeRead(c, cqe);
    if cqe.more then WakeReader(d, fx, ok) else EndedRead(d, fx, ReadFatal(cqe.res), ok)
  }

  // ----- Writing -------------------------------------------------------------

  /** Which error results of a write end the connection. */
  predicate WriteFatal(res: int) {
    res < 0 && -res !in {EAGAIN, ENOBUFS, EINTR}
  }

  /** Rebuilds the batch from the cursor on and submits it. */
  function Flush(c: Conn): Conn {
    c.(w := c.w.(batch := BatchOf(c.w.q, c.cfg.maxSlices),
                 q := AfterBatch(c.w.q, c.cfg.maxSlices), sending := true))
  }

  /** The batch must not be empty, and the context must have a holder to submit through. */
  predicate FlushOk(c: Conn) {
    BatchOf(c.w.q, c.cfg.maxSlices) != [] && c.w.holder
  }

  function SendInLoop(c: Conn, data: seq<byte>): Outcome {
    var d := c.(w := c.w.(q := Append(c.w.q, data)));
    if d.w.sending then Outcome(d, NONE, Finished, true)
    else
      var h := d.(w := d.w.(holder := true));
      Outcome(Flush(h), NONE.(write := true), Finished, FlushOk(h))
  }

  /** The second half of the write completion: send what is left, wake a waiting writer. */
  function WriteMore(c: Conn, ok: bool): Outcome {
    if Flatten(c.w.q.frags) != [] then WakeWriter(Flush(c), NONE.(write := true), ok && FlushOk(c))
    else WakeWriter(c.(w := c.w.(sending := false, holder := false)), NONE, ok)
  }

  function WakeWriter(c: Conn, fx: Fx, ok: bool): Outcome {
    if c.w.handle && !OverOut(c.cfg, c.w.q) then Outcome(c.(w := c.w.(handle := false)), fx, Resume(KReturn), ok)
    else Outcome(c, fx, Finished, ok)
  }

  function OnWrite(c: Conn, res: int): Outcome {
    var ok := c.w.holder;
    if WriteFatal(res) then
      var d := c.(w := c.w.(error := true, sending := false));
      if d.w.handle then Outcome(d, NONE, Resume(KWriteFatal), ok)
      else FinishWriteFatal(d).(ok := ok)
    else if res < 0 then
      WriteMore(c.(w := c.w.(sending := false)), ok)
    else
      WriteMore(c.(w := c.w.(q := SendQ(Skip(c.w.q.frags, res), 0))), ok)
  }

  // ----- What the coroutine calls -------------------------------------------

  /** `co_await PrepareToRead()` on the loop thread: true when it does not suspend. */
  predicate RecvReady(c: Conn) {
    c.closing || ChainLen(c.r.chain) != 0
  }

  /** What `co_await PrepareToRead()` yields when the coroutine goes on. */
  function RecvResult(c: Conn): int {
    if c.r.error || c.closing then -1 else ChainLen(c.r.chain)
  }

  function RecvSuspend(c: Conn): Outcome {
    var d := c.(r := c.r.(handle := true));
    if d.r.status == Stopped then Outcome(SubmitRead(d), NONE.(read := true), Finished, true)
    else Outcome(d, NONE, Finished, true)
  }

  /** What `co_await send(data)` yields when the coroutine goes on. */
  predicate SendResult(c: Conn) {
    !c.closing && !c.w.error
  }

  /** `co_await send(data)` on the loop thread: `sendInLoop` unless the connection is
      closing, and then suspension above the high-water mark. */
  function SendSuspend(c: Conn): Conn {
    c.(w := c.w.(handle := true))
  }
}
