/**
  The shutdown path of the relay's main routine: once the serving loop has
  ended, every remaining connection is removed from the pool, head first.
 */
module Server {
  import opened Connection
  import opened ConnPool

  /**
    The teardown loop: walk the connection list from the head, reading the
    successor before each removeConn so the walk never touches a removed
    connection, until the pool is empty. Every remaining descriptor loses
    its read interest, all queued chunks are discarded, and `maxfd` is left
    where it was (removeConn never lowers it).
   */
  method Teardown(pool: Pool)
    requires pool.Valid()
    modifies pool
    ensures pool.Valid()
    ensures pool.conns == [] && pool.nrConns == 0 && pool.writeSet == {}
    ensures pool.readSet == old(pool.readSet) - LiveFds(old(pool.conns))
    ensures pool.maxfd == old(pool.maxfd)
  {
    var cursor := pool.conns;
    while cursor != []
      invariant pool.Valid()
      invariant pool.conns == cursor
      invariant LiveFds(cursor) <= LiveFds(old(pool.conns))
      invariant pool.readSet == old(pool.readSet) - (LiveFds(old(pool.conns)) - LiveFds(cursor))
      invariant pool.maxfd == old(pool.maxfd)
      decreases |cursor|
    {
      var next := cursor[1..];
      HeadRemoval(cursor);
      var _ := pool.RemoveConn(cursor[0].fd);
      cursor := next;
    }
  }

  /** Removing the descriptor at the head of a list of distinct descriptors leaves its tail. */
  lemma {:induction false} HeadRemoval(cs: seq<Conn>)
    requires cs != [] && DistinctFds(cs)
    ensures IndexOf(cs, cs[0].fd) == 0
    ensures Without(cs, 0) == cs[1..]
    ensures LiveFds(cs[1..]) == LiveFds(cs) - {cs[0].fd}
  {
    assert Without(cs, 0) == cs[1..];
    forall x | x in LiveFds(cs) - {cs[0].fd} ensures x in LiveFds(cs[1..]) {
      var k :| 0 <= k < |cs| && cs[k].fd == x;
      assert cs[1..][k - 1].fd == x;
    }
  }
}
