/**
  One connection of the relay: its descriptor and the queue of chunks still
  to be written to it, together with the rule by which writeToClient drains
  that queue through a non-blocking transport.
 */
module Connection {

  /** One outbound chunk: the bytes of one transformed read, copied once per recipient. */
  type Chunk = seq<bv8>

  /**
    A live connection. `queue` lists the pending chunks from the head (the
    next one to write, `write_msg_head`) to the tail (`write_msg_tail`).
   */
  datatype Conn = Conn(fd: int, queue: seq<Chunk>)

  /**
    The transport's answer to one `write` of a whole chunk. Any non-negative
    byte count is `Accepted` (the chunk then counts as delivered in full);
    a negative result with `EWOULDBLOCK` is `WouldBlock`; any other negative
    result is `Failed`.
   */
  datatype WriteOutcome = Accepted | WouldBlock | Failed

  /**
    The answer to the write attempt numbered `j` (from 0) of one flush.
    Once the supplied script of answers is used up the transport accepts
    nothing more for now, which reads as would-block.
   */
  function Attempt(outcomes: seq<WriteOutcome>, j: nat): WriteOutcome
  {
    if j < |outcomes| then outcomes[j] else WouldBlock
  }

  /**
    How many chunks from the head of `queue` one flush delivers: every
    attempt before it was accepted, and the attempt at that position (if
    the queue is not exhausted) was not.
   */
  function Sent(queue: seq<Chunk>, outcomes: seq<WriteOutcome>): (k: nat)
    ensures k <= |queue|
    ensures forall j :: 0 <= j < k ==> Attempt(outcomes, j) == Accepted
    ensures k < |queue| ==> Attempt(outcomes, k) != Accepted
    decreases |queue|
  {
    if queue == [] || Attempt(outcomes, 0) != Accepted then 0
    else
      var k' := Sent(queue[1..], outcomes[1..]);
      assert forall j :: 0 <= j < k' + 1 ==> Attempt(outcomes, j) == Accepted by {
        forall j | 0 < j < k' + 1 ensures Attempt(outcomes, j) == Accepted {
          assert Attempt(outcomes[1..], j - 1) == Accepted;
        }
      }
      assert k' + 1 < |queue| ==> Attempt(outcomes[1..], k') == Attempt(outcomes, k' + 1);
      1 + k'
  }

  /** A flush stops on a transport error (not a would-block) before emptying the queue. */
  predicate DrainFails(queue: seq<Chunk>, outcomes: seq<WriteOutcome>)
  {
    Sent(queue, outcomes) < |queue| && Attempt(outcomes, Sent(queue, outcomes)) == Failed
  }

  /** The chunks left queued after a flush: those the transport did not accept, in order. */
  function Remaining(queue: seq<Chunk>, outcomes: seq<WriteOutcome>): (rest: seq<Chunk>)
    ensures queue == queue[..Sent(queue, outcomes)] + rest
    ensures |rest| > 0 ==> rest[0] == queue[Sent(queue, outcomes)] && Attempt(outcomes, Sent(queue, outcomes)) != Accepted
  {
    queue[Sent(queue, outcomes)..]
  }

  /** The flush stopped at the chunk numbered `k` (or ran out of chunks) and accepted all before it. */
  lemma SentIsFirstRefusal(queue: seq<Chunk>, outcomes: seq<WriteOutcome>, k: nat)
    requires k <= |queue|
    requires forall j :: 0 <= j < k ==> Attempt(outcomes, j) == Accepted
    requires k < |queue| ==> Attempt(outcomes, k) != Accepted
    ensures Sent(queue, outcomes) == k
  {
  }

  /** A transport that refuses the first write leaves the whole queue, in order. */
  lemma RefusedFlushKeepsQueue(queue: seq<Chunk>, outcomes: seq<WriteOutcome>)
    requires Attempt(outcomes, 0) != Accepted
    ensures Remaining(queue, outcomes) == queue
    ensures DrainFails(queue, outcomes) <==> queue != [] && Attempt(outcomes, 0) == Failed
  {
    SentIsFirstRefusal(queue, outcomes, 0);
  }

  /** A transport that accepts at least as many writes as there are chunks empties the queue. */
  lemma AcceptingFlushEmptiesQueue(queue: seq<Chunk>, outcomes: seq<WriteOutcome>)
    requires |queue| <= |outcomes|
    requires forall j :: 0 <= j < |queue| ==> outcomes[j] == Accepted
    ensures Remaining(queue, outcomes) == []
    ensures !DrainFails(queue, outcomes)
  {
  }

  /**
    As written, writeToClient returns -1 on a transport error without
    advancing `write_msg_head`: the connection still reaches every chunk of
    its old queue, although the first `released` of them have been freed.
   */
  datatype HeldQueue = HeldQueue(chunks: seq<Chunk>, released: nat)

  /** The queue a failing flush leaves behind as the code is written. */
  function QueueAfterWriteErrorAsWritten(queue: seq<Chunk>, outcomes: seq<WriteOutcome>): (h: HeldQueue)
    requires DrainFails(queue, outcomes)
    ensures h.chunks == queue
    ensures h.released == Sent(queue, outcomes) < |h.chunks|
  {
    HeldQueue(queue, Sent(queue, outcomes))
  }

  /**
    Whenever a failing flush has written at least one chunk, the queue the
    code keeps starts with a freed chunk and differs from the queue of
    undelivered chunks the connection should keep.
   */
  lemma WriteErrorKeepsFreedChunks(queue: seq<Chunk>, outcomes: seq<WriteOutcome>)
    requires DrainFails(queue, outcomes) && Sent(queue, outcomes) > 0
    ensures QueueAfterWriteErrorAsWritten(queue, outcomes).released > 0
    ensures QueueAfterWriteErrorAsWritten(queue, outcomes).chunks[0] == queue[0]
    ensures QueueAfterWriteErrorAsWritten(queue, outcomes).chunks != QueueAfterFlush(queue, outcomes).chunks
  {
  }

  /**
    Two queued chunks, the first write accepted and the second failing: the
    head the connection keeps is a chunk that has already been freed.
   */
  lemma WriteErrorKeepsFreedHead()
    ensures var q := [[0x48 as bv8], [0x49 as bv8]];
            var h := QueueAfterWriteErrorAsWritten(q, [Accepted, Failed]);
            h.released == 1 && h.chunks[0] == q[0]
  {
    var q := [[0x48 as bv8], [0x49 as bv8]];
    SentIsFirstRefusal(q, [Accepted, Failed], 1);
  }

  /**
    The queue a flush leaves behind, whether it stops on a would-block, on
    a transport error or by running out of chunks: the head has moved past
    every delivered chunk, so nothing freed stays reachable.
   */
  function QueueAfterFlush(queue: seq<Chunk>, outcomes: seq<WriteOutcome>): (h: HeldQueue)
    ensures h.released == 0
    ensures queue == queue[..Sent(queue, outcomes)] + h.chunks
    ensures DrainFails(queue, outcomes) ==> |h.chunks| > 0
  {
    HeldQueue(Remaining(queue, outcomes), 0)
  }
}
