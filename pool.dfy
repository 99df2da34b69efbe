/**
  The connection pool of the relay (`conn_pool_t`): the list of live
  connections, head first, each owning its FIFO queue of outbound chunks;
  the read- and write-interest descriptor sets handed to select(); the
  largest descriptor seen (`maxfd`) and the connection count (`nr_conns`).
 */
module ConnPool {
  import opened Connection

  /** The descriptors of the live connections. */
  function LiveFds(cs: seq<Conn>): set<int>
  {
    set k | 0 <= k < |cs| :: cs[k].fd
  }

  /** No descriptor belongs to two live connections. */
  ghost predicate DistinctFds(cs: seq<Conn>)
  {
    forall i, j :: 0 <= i < j < |cs| ==> cs[i].fd != cs[j].fd
  }

  /**
    The pool invariant: descriptors are unique, every live descriptor has
    read interest, a live descriptor has write interest exactly when its
    queue is non-empty and only live descriptors have write interest,
    `nrConns` counts the live connections and `maxfd` bounds their
    descriptors. `readSet` may hold more (the listening socket).
   */
  ghost predicate PoolInv(conns: seq<Conn>, readSet: set<int>, writeSet: set<int>, maxfd: int, nrConns: int)
  {
    && DistinctFds(conns)
    && (forall k :: 0 <= k < |conns| ==> conns[k].fd in readSet)
    && (forall k :: 0 <= k < |conns| ==> (conns[k].fd in writeSet <==> conns[k].queue != []))
    && writeSet <= LiveFds(conns)
    && nrConns == |conns|
    && (forall k :: 0 <= k < |conns| ==> conns[k].fd <= maxfd)
  }

  /**
    Where the search loop of removeConn and writeToClient stops: the
    position of the first connection with descriptor `sd`, or -1.
   */
  function IndexOf(cs: seq<Conn>, sd: int): (i: int)
    ensures -1 <= i < |cs|
    ensures 0 <= i ==> cs[i].fd == sd && forall j :: 0 <= j < i ==> cs[j].fd != sd
    ensures i == -1 <==> sd !in LiveFds(cs)
  {
    if cs == [] then -1
    else if cs[0].fd == sd then 0
    else
      var t := IndexOf(cs[1..], sd);
      assert forall j :: 1 <= j < |cs| ==> cs[j] == cs[1..][j - 1];
      assert t == -1 ==> sd !in LiveFds(cs);
      assert t >= 0 ==> cs[t + 1].fd == sd;
      if t < 0 then -1 else t + 1
  }

  /** The list with the connection at position `i` unlinked. */
  function Without(cs: seq<Conn>, i: int): (r: seq<Conn>)
    requires 0 <= i < |cs|
    ensures |r| == |cs| - 1
    ensures forall k :: 0 <= k < i ==> r[k] == cs[k]
    ensures forall k :: i <= k < |r| ==> r[k] == cs[k + 1]
  {
    cs[..i] + cs[i + 1..]
  }

  /** The number of connections among the first `n` of `cs` other than the sender `sd`. */
  function RecipientsBefore(cs: seq<Conn>, sd: int, n: int): (count: nat)
    requires 0 <= n <= |cs|
    ensures count <= n
  {
    if n == 0 then 0
    else RecipientsBefore(cs, sd, n - 1) + (if cs[n - 1].fd != sd then 1 else 0)
  }

  /** The number of connections other than the sender `sd`. */
  function RecipientCount(cs: seq<Conn>, sd: int): nat
  {
    RecipientsBefore(cs, sd, |cs|)
  }

  /**
    addMsg gives a copy of the chunk to the connection at position `k`: it
    is not the sender, and allocation has not failed for any earlier
    recipient (`allocations` chunk allocations succeed before the first
    failure).
   */
  predicate Receives(cs: seq<Conn>, sd: int, allocations: nat, k: int)
    requires 0 <= k < |cs|
  {
    cs[k].fd != sd && RecipientsBefore(cs, sd, k) < allocations
  }

  /** The connection at position `k` after addMsg(sd, chunk): with the chunk appended if it receives one. */
  function Delivered(cs: seq<Conn>, sd: int, chunk: Chunk, allocations: nat, k: int): Conn
    requires 0 <= k < |cs|
  {
    if Receives(cs, sd, allocations, k) then Conn(cs[k].fd, cs[k].queue + [chunk]) else cs[k]
  }

  /**
    The list after addMsg(sd, chunk) with `allocations` successful
    allocations: the same connections in the same order, the sender's
    untouched, and every queue either kept or grown by one copy of the
    chunk at its tail.
   */
  function FanOut(cs: seq<Conn>, sd: int, chunk: Chunk, allocations: nat): (r: seq<Conn>)
    ensures |r| == |cs|
    ensures forall k :: 0 <= k < |cs| ==> r[k] == Delivered(cs, sd, chunk, allocations, k)
    ensures forall k :: 0 <= k < |cs| ==> r[k].fd == cs[k].fd
    ensures forall k :: 0 <= k < |cs| && cs[k].fd == sd ==> r[k] == cs[k]
    ensures forall k :: 0 <= k < |cs| ==> r[k].queue == cs[k].queue || r[k].queue == cs[k].queue + [chunk]
  {
    seq(|cs|, k requires 0 <= k < |cs| => Delivered(cs, sd, chunk, allocations, k))
  }

  /** The descriptors among the first `n` connections that receive the chunk. */
  function ServedBefore(cs: seq<Conn>, sd: int, allocations: nat, n: int): set<int>
    requires 0 <= n <= |cs|
  {
    set k | 0 <= k < n && Receives(cs, sd, allocations, k) :: cs[k].fd
  }

  /** The descriptors that receive the chunk, which addMsg adds to the write-interest set. */
  function ServedFds(cs: seq<Conn>, sd: int, allocations: nat): (fds: set<int>)
    ensures fds <= LiveFds(cs)
    ensures sd !in fds
  {
    ServedBefore(cs, sd, allocations, |cs|)
  }

  lemma {:induction false} ServedBeforeStep(cs: seq<Conn>, sd: int, allocations: nat, n: int)
    requires 0 <= n < |cs|
    ensures ServedBefore(cs, sd, allocations, n + 1)
      == ServedBefore(cs, sd, allocations, n) + (if Receives(cs, sd, allocations, n) then {cs[n].fd} else {})
  {
  }

  lemma {:induction false} RecipientsStep(cs: seq<Conn>, sd: int, k: int)
    requires 0 <= k < |cs|
    ensures RecipientsBefore(cs, sd, k + 1) == RecipientsBefore(cs, sd, k) + (if cs[k].fd != sd then 1 else 0)
  {
  }

  /** Counting recipients over a longer prefix never gives fewer. */
  lemma {:induction false} RecipientsMonotone(cs: seq<Conn>, sd: int, j: int, k: int)
    requires 0 <= j <= k <= |cs|
    ensures RecipientsBefore(cs, sd, j) <= RecipientsBefore(cs, sd, k)
    decreases k - j
  {
    if j < k {
      RecipientsStep(cs, sd, k - 1);
      RecipientsMonotone(cs, sd, j, k - 1);
    }
  }

  /** Before the point where the allocations run out, every connection other than the sender receives. */
  lemma {:induction false} ReceivesBefore(cs: seq<Conn>, sd: int, allocations: nat, p: int)
    requires 0 <= p <= |cs| && RecipientsBefore(cs, sd, p) <= allocations
    ensures forall k :: 0 <= k < p && cs[k].fd != sd ==> Receives(cs, sd, allocations, k)
  {
    forall k | 0 <= k < p && cs[k].fd != sd
      ensures Receives(cs, sd, allocations, k)
    {
      RecipientsStep(cs, sd, k);
      RecipientsMonotone(cs, sd, k + 1, p);
      assert RecipientsBefore(cs, sd, k) < allocations;
    }
  }

  /** From the point where the allocations have run out, no connection receives. */
  lemma {:induction false} NoneReceivesFrom(cs: seq<Conn>, sd: int, allocations: nat, p: int)
    requires 0 <= p <= |cs| && allocations <= RecipientsBefore(cs, sd, p)
    ensures forall k :: p <= k < |cs| ==> !Receives(cs, sd, allocations, k)
  {
    forall k | p <= k < |cs|
      ensures !Receives(cs, sd, allocations, k)
    {
      RecipientsMonotone(cs, sd, p, k);
    }
  }

  /**
    When every recipient's allocation succeeds, every connection other than
    the sender gets exactly one copy of the chunk at the tail of its queue,
    the sender's queue is untouched, and every live descriptor other than
    the sender's gains write interest.
   */
  lemma {:induction false} FanOutComplete(cs: seq<Conn>, sd: int, chunk: Chunk, allocations: nat)
    requires RecipientCount(cs, sd) <= allocations
    ensures forall k :: 0 <= k < |cs| ==>
      FanOut(cs, sd, chunk, allocations)[k]
        == if cs[k].fd != sd then Conn(cs[k].fd, cs[k].queue + [chunk]) else cs[k]
    ensures ServedFds(cs, sd, allocations) == LiveFds(cs) - {sd}
  {
    ReceivesBefore(cs, sd, allocations, |cs|);
    forall x | x in LiveFds(cs) - {sd} ensures x in ServedFds(cs, sd, allocations) {
      var k :| 0 <= k < |cs| && cs[k].fd == x;
      assert Receives(cs, sd, allocations, k);
    }
  }

  /**
    If allocation fails at the recipient at position `p`, every connection
    before `p` other than the sender has its copy, and `p` and every later
    connection are unchanged (nothing is rolled back).
   */
  lemma {:induction false} FanOutStopsAt(cs: seq<Conn>, sd: int, chunk: Chunk, allocations: nat, p: int)
    requires 0 <= p < |cs| && cs[p].fd != sd
    requires RecipientsBefore(cs, sd, p) == allocations
    ensures forall k :: 0 <= k < p ==>
      FanOut(cs, sd, chunk, allocations)[k]
        == if cs[k].fd != sd then Conn(cs[k].fd, cs[k].queue + [chunk]) else cs[k]
    ensures forall k :: p <= k < |cs| ==> FanOut(cs, sd, chunk, allocations)[k] == cs[k]
    ensures allocations < RecipientCount(cs, sd)
  {
    ReceivesBefore(cs, sd, allocations, p);
    NoneReceivesFrom(cs, sd, allocations, p);
    RecipientsStep(cs, sd, p);
    RecipientsMonotone(cs, sd, p + 1, |cs|);
  }

  /**
    When fewer allocations succeed than there are recipients, there is a
    recipient at which addMsg stops, as FanOutStopsAt describes.
   */
  lemma {:induction false} FanOutPartial(cs: seq<Conn>, sd: int, allocations: nat)
    requires allocations < RecipientCount(cs, sd)
    ensures exists p :: 0 <= p < |cs| && cs[p].fd != sd && RecipientsBefore(cs, sd, p) == allocations
  {
    FailingRecipientWithin(cs, sd, allocations, |cs|);
  }

  lemma {:induction false} FailingRecipientWithin(cs: seq<Conn>, sd: int, allocations: nat, n: int)
    requires 0 <= n <= |cs|
    requires allocations < RecipientsBefore(cs, sd, n)
    ensures exists p :: 0 <= p < n && cs[p].fd != sd && RecipientsBefore(cs, sd, p) == allocations
  {
    if allocations < RecipientsBefore(cs, sd, n - 1) {
      FailingRecipientWithin(cs, sd, allocations, n - 1);
    } else {
      assert cs[n - 1].fd != sd && RecipientsBefore(cs, sd, n - 1) == allocations;
    }
  }

  ghost predicate AppendedUpTo(cs: seq<Conn>, conns: seq<Conn>, sd: int, chunk: Chunk, allocations: nat, i: int)
  {
    && 0 <= i <= |cs| == |conns|
    && (forall k :: 0 <= k < i ==> conns[k] == Delivered(cs, sd, chunk, allocations, k))
    && (forall k :: i <= k < |conns| ==> conns[k] == cs[k])
  }

  lemma {:induction false} AppendedStep(cs: seq<Conn>, conns: seq<Conn>, sd: int, chunk: Chunk, allocations: nat, i: int)
    requires AppendedUpTo(cs, conns, sd, chunk, allocations, i) && i < |cs|
    requires cs[i].fd != sd && RecipientsBefore(cs, sd, i) < allocations
    ensures AppendedUpTo(cs, conns[i := Conn(cs[i].fd, cs[i].queue + [chunk])], sd, chunk, allocations, i + 1)
  {
  }

  lemma {:induction false} AppendedSkip(cs: seq<Conn>, conns: seq<Conn>, sd: int, chunk: Chunk, allocations: nat, i: int)
    requires AppendedUpTo(cs, conns, sd, chunk, allocations, i) && i < |cs|
    requires cs[i].fd == sd
    ensures AppendedUpTo(cs, conns, sd, chunk, allocations, i + 1)
  {
  }

  /**
    The interest and `maxfd` bookkeeping of addMsg after it has served the
    descriptors `served`: each has write interest, and `maxfd` has been
    raised to cover them and nothing else.
   */
  ghost predicate Marked(writeSet: set<int>, writeSet': set<int>, maxfd: int, maxfd': int, served: set<int>)
  {
    && writeSet' == writeSet + served
    && maxfd <= maxfd'
    && (forall x :: x in served ==> x <= maxfd')
    && (maxfd' == maxfd || maxfd' in served)
  }

  lemma {:induction false} MarkedStep(writeSet: set<int>, writeSet': set<int>, maxfd: int, maxfd': int, served: set<int>, fd: int)
    requires Marked(writeSet, writeSet', maxfd, maxfd', served)
    ensures Marked(writeSet, writeSet' + {fd}, maxfd, if fd > maxfd' then fd else maxfd', served + {fd})
  {
  }

  /**
    The loop of addMsg has updated the first `i` connections as FanOut
    does and left the rest alone; it is finished when it has walked the
    whole list or has reached a recipient for which allocation fails.
   */
  lemma {:induction false} FanOutStopped(cs: seq<Conn>, conns: seq<Conn>, sd: int, chunk: Chunk, allocations: nat, i: int)
    requires AppendedUpTo(cs, conns, sd, chunk, allocations, i)
    requires RecipientsBefore(cs, sd, i) <= allocations
    requires i < |cs| ==> cs[i].fd != sd && RecipientsBefore(cs, sd, i) == allocations
    ensures conns == FanOut(cs, sd, chunk, allocations)
    ensures ServedBefore(cs, sd, allocations, i) == ServedFds(cs, sd, allocations)
    ensures forall k :: i <= k < |cs| ==> !Receives(cs, sd, allocations, k)
    ensures i < |cs| <==> allocations < RecipientCount(cs, sd)
  {
    if i < |cs| {
      NoneReceivesFrom(cs, sd, allocations, i);
      RecipientsStep(cs, sd, i);
      RecipientsMonotone(cs, sd, i + 1, |cs|);
    }
    StoppedMatchesFanOut(cs, conns, sd, chunk, allocations, i);
    StoppedServesAll(cs, sd, allocations, i);
  }

  lemma {:induction false} StoppedMatchesFanOut(cs: seq<Conn>, conns: seq<Conn>, sd: int, chunk: Chunk, allocations: nat, i: int)
    requires AppendedUpTo(cs, conns, sd, chunk, allocations, i)
    requires forall k :: i <= k < |cs| ==> !Receives(cs, sd, allocations, k)
    ensures conns == FanOut(cs, sd, chunk, allocations)
  {
    var f := FanOut(cs, sd, chunk, allocations);
    forall k | 0 <= k < |cs| ensures conns[k] == f[k] {
      if i <= k {
        assert !Receives(cs, sd, allocations, k);
      }
    }
  }

  lemma {:induction false} StoppedServesAll(cs: seq<Conn>, sd: int, allocations: nat, i: int)
    requires 0 <= i <= |cs|
    requires forall k :: i <= k < |cs| ==> !Receives(cs, sd, allocations, k)
    ensures ServedBefore(cs, sd, allocations, i) == ServedFds(cs, sd, allocations)
  {
    forall x | x in ServedFds(cs, sd, allocations) ensures x in ServedBefore(cs, sd, allocations, i) {
      var k :| 0 <= k < |cs| && Receives(cs, sd, allocations, k) && cs[k].fd == x;
    }
  }

  /** initPool establishes the invariant. */
  lemma {:induction false} InitEstablishesInv()
    ensures PoolInv([], {}, {}, -1, 0)
  {
  }

  /** addConn of a descriptor that is not live keeps the invariant. */
  lemma {:induction false} AddConnPreservesInv(conns: seq<Conn>, readSet: set<int>, writeSet: set<int>, maxfd: int, nrConns: int, sd: int)
    requires PoolInv(conns, readSet, writeSet, maxfd, nrConns)
    requires sd !in LiveFds(conns)
    ensures sd !in writeSet
    ensures PoolInv([Conn(sd, [])] + conns, readSet + {sd}, writeSet, if sd > maxfd then sd else maxfd, nrConns + 1)
  {
    var cs := [Conn(sd, [])] + conns;
    forall k | 1 <= k < |cs| ensures cs[k] == conns[k - 1] && cs[k].fd != sd {
      assert conns[k - 1].fd in LiveFds(conns);
    }
    forall x | x in writeSet ensures x in LiveFds(cs) {
      var k :| 0 <= k < |conns| && conns[k].fd == x;
      assert cs[k + 1].fd == x;
    }
  }

  /** removeConn of the connection at position `i` keeps the invariant. */
  lemma {:induction false} RemoveConnPreservesInv(conns: seq<Conn>, readSet: set<int>, writeSet: set<int>, maxfd: int, nrConns: int, i: int)
    requires PoolInv(conns, readSet, writeSet, maxfd, nrConns)
    requires 0 <= i < |conns|
    ensures var sd := conns[i].fd;
      PoolInv(Without(conns, i), readSet - {sd}, writeSet - {sd}, maxfd, nrConns - 1)
    ensures LiveFds(Without(conns, i)) == LiveFds(conns) - {conns[i].fd}
  {
    var sd := conns[i].fd;
    var cs := Without(conns, i);
    forall x | x in LiveFds(conns) - {sd} ensures x in LiveFds(cs) {
      var k :| 0 <= k < |conns| && conns[k].fd == x;
      if k < i { assert cs[k].fd == x; } else { assert cs[k - 1].fd == x; }
    }
    forall k | 0 <= k < |cs| ensures cs[k].fd != sd {
      if k >= i { assert cs[k] == conns[k + 1]; }
    }
    forall a, b | 0 <= a < b < |cs| ensures cs[a].fd != cs[b].fd {
      var a' := if a < i then a else a + 1;
      var b' := if b < i then b else b + 1;
      assert cs[a] == conns[a'] && cs[b] == conns[b'];
    }
  }

  /** addMsg keeps the invariant: only recipients gain chunks, and they gain write interest. */
  lemma {:induction false} FanOutPreservesInv(conns: seq<Conn>, readSet: set<int>, writeSet: set<int>, maxfd: int, nrConns: int,
                           sd: int, chunk: Chunk, allocations: nat)
    requires PoolInv(conns, readSet, writeSet, maxfd, nrConns)
    ensures PoolInv(FanOut(conns, sd, chunk, allocations), readSet,
                    writeSet + ServedFds(conns, sd, allocations), maxfd, nrConns)
  {
    var cs := FanOut(conns, sd, chunk, allocations);
    var served := ServedFds(conns, sd, allocations);
    forall k | 0 <= k < |cs| ensures cs[k].fd in writeSet + served <==> cs[k].queue != [] {
      if Receives(conns, sd, allocations, k) {
        assert cs[k].fd in served;
      } else {
        assert cs[k] == conns[k];
        if cs[k].fd in served {
          var j :| 0 <= j < |conns| && Receives(conns, sd, allocations, j) && conns[j].fd == cs[k].fd;
          assert j == k;
        }
      }
    }
    forall x | x in writeSet + served ensures x in LiveFds(cs) {
      var k :| 0 <= k < |conns| && conns[k].fd == x;
      assert cs[k].fd == x;
    }
  }

  /** A flush of the connection at position `i` keeps the invariant. */
  lemma {:induction false} FlushPreservesInv(conns: seq<Conn>, readSet: set<int>, writeSet: set<int>, maxfd: int, nrConns: int,
                          i: int, outcomes: seq<WriteOutcome>)
    requires PoolInv(conns, readSet, writeSet, maxfd, nrConns)
    requires 0 <= i < |conns|
    ensures var c := conns[i];
      var rest := Remaining(c.queue, outcomes);
      PoolInv(conns[i := Conn(c.fd, rest)], readSet, if rest == [] then writeSet - {c.fd} else writeSet, maxfd, nrConns)
  {
    var c := conns[i];
    var rest := Remaining(c.queue, outcomes);
    var cs := conns[i := Conn(c.fd, rest)];
    assert rest != [] ==> c.queue != [];
    forall x | x in writeSet ensures x in LiveFds(cs) {
      var k :| 0 <= k < |conns| && conns[k].fd == x;
      assert cs[k].fd == x;
    }
  }

  /**
    The search loop of removeConn and writeToClient: walk the list from the
    head until a connection with descriptor `sd` is found.
   */
  method FindConn(conns: seq<Conn>, sd: int) returns (i: int)
    ensures i == IndexOf(conns, sd)
    ensures i == -1 || (0 <= i < |conns| && conns[i].fd == sd)
  {
    i := 0;
    while i < |conns| && conns[i].fd != sd
      invariant 0 <= i <= |conns|
      invariant forall j :: 0 <= j < i ==> conns[j].fd != sd
    {
      i := i + 1;
    }
    if i == |conns| {
      i := -1;
    }
  }

  /**
    The loop of addMsg over the connection list, write-interest set and
    `maxfd`: walk the list from the head and, at each connection other than
    `sd`, allocate a copy of `chunk`, append it to that queue, set write
    interest and raise `maxfd` if needed; stop with -1 at the first failed
    allocation.
   */
  method AppendToOthers(conns: seq<Conn>, writeSet: set<int>, maxfd: int, sd: int, chunk: Chunk, allocations: nat)
    returns (conns': seq<Conn>, writeSet': set<int>, maxfd': int, r: int)
    ensures conns' == FanOut(conns, sd, chunk, allocations)
    ensures writeSet' == writeSet + ServedFds(conns, sd, allocations)
    ensures maxfd <= maxfd'
    ensures forall x :: x in ServedFds(conns, sd, allocations) ==> x <= maxfd'
    ensures maxfd' == maxfd || maxfd' in ServedFds(conns, sd, allocations)
    ensures r == (if RecipientCount(conns, sd) <= allocations then 0 else -1)
  {
    conns', writeSet', maxfd' := conns, writeSet, maxfd;
    var i := 0;
    var served := 0;
    while i < |conns'|
      invariant 0 <= i <= |conns'| == |conns|
      invariant served == RecipientsBefore(conns, sd, i) <= allocations
      invariant AppendedUpTo(conns, conns', sd, chunk, allocations, i)
      invariant Marked(writeSet, writeSet', maxfd, maxfd', ServedBefore(conns, sd, allocations, i))
    {
      ServedBeforeStep(conns, sd, allocations, i);
      var c := conns'[i];
      if c.fd != sd {
        if served == allocations {
          FanOutStopped(conns, conns', sd, chunk, allocations, i);
          return conns', writeSet', maxfd', -1;
        }
        AppendedStep(conns, conns', sd, chunk, allocations, i);
        MarkedStep(writeSet, writeSet', maxfd, maxfd', ServedBefore(conns, sd, allocations, i), c.fd);
        conns' := conns'[i := Conn(c.fd, c.queue + [chunk])];
        writeSet' := writeSet' + {c.fd};
        if c.fd > maxfd' {
          maxfd' := c.fd;
        }
        served := served + 1;
      } else {
        AppendedSkip(conns, conns', sd, chunk, allocations, i);
      }
      i := i + 1;
    }
    FanOutStopped(conns, conns', sd, chunk, allocations, |conns|);
    r := 0;
  }

  class Pool {
    var conns: seq<Conn>
    var readSet: set<int>
    var writeSet: set<int>
    var maxfd: int
    var nrConns: int

    ghost predicate Valid()
      reads this
    {
      PoolInv(conns, readSet, writeSet, maxfd, nrConns)
    }

    /** initPool: no connections, no interest, `maxfd` = -1. */
    method InitPool() returns (r: int)
      modifies this
      ensures Valid()
      ensures conns == [] && readSet == {} && writeSet == {}
      ensures maxfd == -1 && nrConns == 0 && r == 0
    {
      maxfd := -1;
      readSet := {};
      writeSet := {};
      nrConns := 0;
      conns := [];
      r := 0;
    }

    /**
      addConn: put a new connection with an empty queue at the head of the
      list and give it read interest; `allocOk` is false when malloc fails,
      and then nothing changes.
     */
    method AddConn(sd: int, allocOk: bool) returns (r: int)
      requires Valid()
      requires sd !in LiveFds(conns)
      modifies this
      ensures Valid()
      ensures !allocOk ==> (r == -1 && conns == old(conns) && readSet == old(readSet)
        && writeSet == old(writeSet) && maxfd == old(maxfd) && nrConns == old(nrConns))
      ensures allocOk ==> (r == 0 && conns == [Conn(sd, [])] + old(conns)
        && readSet == old(readSet) + {sd} && writeSet == old(writeSet)
        && nrConns == old(nrConns) + 1
        && maxfd == (if sd > old(maxfd) then sd else old(maxfd)))
      ensures allocOk ==> sd in readSet && sd !in writeSet && sd <= maxfd
    {
      if !allocOk {
        return -1;
      }
      AddConnPreservesInv(conns, readSet, writeSet, maxfd, nrConns, sd);
      conns := [Conn(sd, [])] + conns;
      nrConns := nrConns + 1;
      readSet := readSet + {sd};
      if sd > maxfd {
        maxfd := sd;
      }
      r := 0;
    }

    /**
      removeConn: unlink the connection with descriptor `sd`, discard its
      queue, clear both interests, and report the new head's descriptor (or
      -1). A descriptor that is not live gives -1 and changes nothing.
     */
    method RemoveConn(sd: int) returns (r: int)
      requires Valid()
      modifies this
      ensures Valid()
      ensures sd !in LiveFds(conns)
      ensures maxfd == old(maxfd)
      ensures var i := IndexOf(old(conns), sd);
        if i < 0 then
          r == -1 && conns == old(conns) && readSet == old(readSet)
          && writeSet == old(writeSet) && nrConns == old(nrConns)
        else
          conns == Without(old(conns), i) && nrConns == old(nrConns) - 1
          && readSet == old(readSet) - {sd} && writeSet == old(writeSet) - {sd}
          && r == (if conns == [] then -1 else conns[0].fd)
    {
      var i := FindConn(conns, sd);
      if i < 0 {
        return -1;
      }
      RemoveConnPreservesInv(conns, readSet, writeSet, maxfd, nrConns, i);
      conns := conns[..i] + conns[i + 1..];
      nrConns := nrConns - 1;
      readSet := readSet - {sd};
      writeSet := writeSet - {sd};
      r := if conns != [] then conns[0].fd else -1;
    }

    /**
      addMsg: append a copy of `buffer[..len]` at the tail of the queue of
      every connection other than `sd`, in list order, giving each
      recipient write interest. `allocations` chunk allocations succeed
      before the first failure; on that failure addMsg returns -1 and keeps
      what it already appended.
     */
    method AddMsg(sd: int, buffer: array<bv8>, len: int, allocations: nat) returns (r: int)
      requires Valid()
      requires 0 <= len <= buffer.Length
      modifies this
      ensures Valid()
      ensures conns == FanOut(old(conns), sd, buffer[..len], allocations)
      ensures writeSet == old(writeSet) + ServedFds(old(conns), sd, allocations)
      ensures readSet == old(readSet) && maxfd == old(maxfd) && nrConns == old(nrConns)
      ensures r == (if RecipientCount(old(conns), sd) <= allocations then 0 else -1)
    {
      FanOutPreservesInv(conns, readSet, writeSet, maxfd, nrConns, sd, buffer[..len], allocations);
      conns, writeSet, maxfd, r := AppendToOthers(conns, writeSet, maxfd, sd, buffer[..len], allocations);
    }

    /**
      writeToClient: write the queued chunks of connection `sd` from the
      head, one write per chunk, while the transport accepts them; stop at
      the first would-block, or return -1 on any other transport error.
      When the queue has emptied, drop write interest. An unknown `sd`
      gives 0 and changes nothing.
     */
    method WriteToClient(sd: int, outcomes: seq<WriteOutcome>) returns (r: int)
      requires Valid()
      modifies this
      ensures Valid()
      ensures readSet == old(readSet) && maxfd == old(maxfd) && nrConns == old(nrConns)
      ensures var i := IndexOf(old(conns), sd);
        if i < 0 then
          r == 0 && conns == old(conns) && writeSet == old(writeSet)
        else
          var q := old(conns)[i].queue;
          var rest := Remaining(q, outcomes);
          && r == (if DrainFails(q, outcomes) then -1 else 0)
          && conns == old(conns)[i := Conn(sd, rest)]
          && writeSet == (if rest == [] then old(writeSet) - {sd} else old(writeSet))
    {
      var i := FindConn(conns, sd);
      if i < 0 {
        return 0;
      }
      FlushPreservesInv(conns, readSet, writeSet, maxfd, nrConns, i, outcomes);
      var q := conns[i].queue;
      var pending := q;
      var attempt := 0;
      while pending != []
        invariant 0 <= attempt <= |q| && pending == q[attempt..]
        invariant forall j :: 0 <= j < attempt ==> Attempt(outcomes, j) == Accepted
      {
        var outcome := Attempt(outcomes, attempt);
        if outcome == WouldBlock {
          break;
        }
        if outcome == Failed {
          SentIsFirstRefusal(q, outcomes, attempt);
          // the head is advanced past the delivered chunks before reporting the error
          conns := conns[i := Conn(sd, pending)];
          return -1;
        }
        pending := pending[1..];
        attempt := attempt + 1;
      }
      SentIsFirstRefusal(q, outcomes, attempt);
      conns := conns[i := Conn(sd, pending)];
      if pending == [] {
        writeSet := writeSet - {sd};
      }
      r := 0;
    }
  }
}
