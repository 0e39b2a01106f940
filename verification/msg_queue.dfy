/** The application message queue every task owns, and the `enqueueMsg`
    helper each task file repeats: allocate a message, fill in the event
    and its data, append it to the task's RTOS queue.  The queue is a
    FIFO sequence; allocation and the RTOS queue's acceptance are
    decisions of the environment and arrive as parameters. */
module MsgQueue {
  import opened Types

  /** An application message: event type and its data. */
  datatype Msg<D> = Msg(event: byte, data: D)

  datatype EnqueueResult<D> = EnqueueResult(status: byte, queue: seq<Msg<D>>)

  /** `enqueueMsg(event, data)`: `allocOk` says whether the message
      allocation succeeded, `accepted` whether Util_enqueueMsg took it. */
  function Enqueue<D>(q: seq<Msg<D>>, event: byte, data: D,
                      allocOk: bool, accepted: bool): (r: EnqueueResult<D>)
    ensures r.status == SUCCESS || r.status == FAILURE || r.status == bleMemAllocError
    ensures !allocOk ==> r.status == bleMemAllocError
    ensures allocOk && !accepted ==> r.status == FAILURE
    ensures r.status == SUCCESS <==> allocOk && accepted
    ensures r.status == SUCCESS ==> r.queue == q + [Msg(event, data)]
    ensures r.status != SUCCESS ==> r.queue == q
  {
    if allocOk then
      if accepted then EnqueueResult(SUCCESS, q + [Msg(event, data)])
      else EnqueueResult(FAILURE, q)
    else EnqueueResult(bleMemAllocError, q)
  }

  /** Only SUCCESS leaves a message queued; the three statuses are
      distinct, so a caller can tell the two failures apart. */
  lemma EnqueueQueuesIffSuccess<D>(q: seq<Msg<D>>, event: byte, data: D,
                                   allocOk: bool, accepted: bool)
    ensures var r := Enqueue(q, event, data, allocOk, accepted);
      (|r.queue| == |q| + 1 <==> r.status == SUCCESS)
      && (r.status == SUCCESS ==> r.queue[|q|] == Msg(event, data) && r.queue[..|q|] == q)
    ensures SUCCESS != FAILURE && SUCCESS != bleMemAllocError && FAILURE != bleMemAllocError
  {
  }

  /** A run of successful enqueues: the queue keeps what it held and
      then holds the new messages in the order they were enqueued, which
      is the order the owning task dequeues them in. */
  function EnqueueAll<D>(q: seq<Msg<D>>, ms: seq<Msg<D>>): (r: seq<Msg<D>>)
    ensures r == q + ms
    decreases |ms|
  {
    if ms == [] then q
    else
      var step := Enqueue(q, ms[0].event, ms[0].data, true, true);
      EnqueueAll(step.queue, ms[1..])
  }
}
