# chatbox connection pool, modelled in Dafny

`chatbox.c` is a single-threaded broadcast relay. Every byte a client
sends is upper-cased and queued to every other connected client. Its state
is a connection pool (`conn_pool_t`) made of:

- a doubly linked list of connections, each owning a singly linked FIFO
  queue of outbound messages;
- the read- and write-interest descriptor sets handed to `select()`;
- the largest descriptor seen (`maxfd`);
- the connection count (`nr_conns`).

This project models that pool and the operations that change it:
`initPool`, `addConn`, `removeConn`, `addMsg` and `writeToClient`. It also
models two loops of the main routine: the in-place upper-casing of each
read, and the teardown that removes every connection at shutdown.

Files:

- `connection.dfy` (module `Connection`): a connection as a descriptor plus
  a queue of chunks, and how one flush drains that queue through a
  non-blocking transport.
- `pool.dfy` (module `ConnPool`): the pool invariant, the specification
  functions for search, unlink and fan-out, and the class `Pool`, whose
  methods update its fields in place.
- `transform.dfy` (module `Transform`): the C-locale `toupper` and the
  in-place loop over the read buffer.
- `server.dfy` (module `Server`): the shutdown teardown loop.

Modelling choices:

- The connection list is a `seq<Conn>`, head first. Each message queue is
  a `seq<Chunk>`, head first, where a `Chunk` is a `seq<bv8>`.
- The interest sets are `set<int>`.
- `malloc` failure is an input. `AddConn` takes `allocOk`. `AddMsg` takes
  `allocations`: the number of recipients whose copy is allocated before
  the first failure.
- The transport is an input. It is a sequence of `WriteOutcome`s
  (`Accepted`, `WouldBlock`, `Failed`), one per `write` call. Past the end
  of the sequence the transport would block.

The pool invariant `ConnPool.PoolInv` says:

- descriptors are unique;
- every live descriptor has read interest;
- a live descriptor has write interest exactly when its queue is non-empty;
- only live descriptors have write interest;
- `nrConns` counts the connections;
- `maxfd` bounds every live descriptor.

Every method of `Pool` keeps it.

## Model

| member | source | states |
|---|---|---|
| ConnPool.Pool.InitPool | chatbox.c:147-157 | the pool is empty: no connections, no interest, `maxfd` = -1, count 0; returns 0 and the invariant holds |
| ConnPool.InitEstablishesInv | chatbox.c:147-157 | the empty pool satisfies the pool invariant |
| ConnPool.Pool.AddConn | chatbox.c:159-182 | on malloc failure returns -1 and changes nothing; otherwise the new connection with an empty queue is at the head and the others keep their order; `sd` gains read interest but not write interest; the count goes up by one; `maxfd` becomes max(`maxfd`, `sd`); returns 0; the invariant is kept |
| ConnPool.AddConnPreservesInv | chatbox.c:166-179 | inserting a non-live descriptor at the head keeps the invariant, and that descriptor has no write interest |
| ConnPool.IndexOf | chatbox.c:185-195 | the position of the first connection with descriptor `sd`, every earlier one differing; -1 exactly when `sd` is not live |
| ConnPool.FindConn | chatbox.c:185-191 | the search loop stops at `IndexOf(conns, sd)`, and a found position holds `sd` |
| ConnPool.Without | chatbox.c:197-204 | unlinking position `i` shortens the list by one and keeps every other connection in its original relative order |
| ConnPool.Pool.RemoveConn | chatbox.c:184-226 | a descriptor that is not live gives -1 and changes nothing (so a second removal of the same descriptor is a no-op); otherwise exactly that connection and its queue go, the others keep their order, the count drops by one, `sd` loses read and write interest, `maxfd` is not lowered, and the result is the new head's descriptor or -1; afterwards `sd` is not live and the invariant holds |
| ConnPool.RemoveConnPreservesInv | chatbox.c:197-219 | unlinking a connection and clearing its descriptor from both sets keeps the invariant; the live descriptors lose exactly that one |
| ConnPool.FanOut | chatbox.c:229-262 | the list after addMsg keeps its length and every descriptor in place, never changes the sender's connection, and either keeps each queue or appends exactly one copy of the chunk at its tail |
| ConnPool.FanOutComplete | chatbox.c:229-262 | when no allocation fails, every connection other than the sender gets exactly one copy at its tail; the sender's queue is unchanged; every live descriptor except the sender's gains write interest |
| ConnPool.FanOutStopsAt | chatbox.c:232-243 | when allocation fails at the recipient in position `p`, the connections before `p` keep their appended copies (no rollback), and `p` and every later connection are unchanged |
| ConnPool.FanOutPartial | chatbox.c:232-243 | if fewer allocations succeed than there are recipients, such a failing recipient `p` exists |
| ConnPool.ServedFds | chatbox.c:256 | the descriptors given write interest by addMsg are live and never the sender's |
| ConnPool.RecipientsMonotone | chatbox.c:230-231 | counting recipients over a longer prefix of the list never gives fewer |
| ConnPool.AppendToOthers | chatbox.c:230-262 | the loop produces exactly `FanOut`; it adds exactly the receiving descriptors to write interest; it raises `maxfd` to cover each of them and to nothing else; it returns 0 when every allocation succeeds and -1 otherwise |
| ConnPool.FanOutPreservesInv | chatbox.c:250-258 | appending to the receivers and giving them write interest keeps the invariant |
| ConnPool.Pool.AddMsg | chatbox.c:228-263 | the connection list becomes `FanOut` of the old one for `buffer[..len]`; write interest grows by exactly the receiving descriptors; `maxfd`, read interest and the count are unchanged; the result is 0 or -1 as allocation allows; the invariant is kept |
| Connection.Sent | chatbox.c:269-284 | a flush delivers chunks from the head while the transport accepts them: every attempt before the count was accepted, and the attempt at the count (if a chunk is left) was not |
| Connection.Remaining | chatbox.c:269-287 | the chunks left queued are the undelivered suffix in original order, headed by the chunk whose write was refused |
| Connection.SentIsFirstRefusal | chatbox.c:271-284 | the delivered count is the first refused attempt, or the queue length |
| Connection.RefusedFlushKeepsQueue | chatbox.c:271-278 | a transport that refuses the first write leaves the whole queue; the flush fails exactly when a chunk was queued and that refusal was an error |
| Connection.AcceptingFlushEmptiesQueue | chatbox.c:269-290 | a transport that accepts every write empties the queue without an error |
| ConnPool.FlushPreservesInv | chatbox.c:287-290 | storing the remaining queue, and dropping write interest when it is empty, keeps the invariant |
| ConnPool.Pool.WriteToClient | chatbox.c:265-298 | an unknown descriptor gives 0 and changes nothing; otherwise the connection's queue becomes `Remaining` (FIFO, one chunk per accepted write, stopping at the first would-block); write interest is dropped exactly when the queue is empty; the result is -1 exactly when a transport error stopped the flush; the invariant is kept |
| Connection.QueueAfterWriteErrorAsWritten | chatbox.c:271-287 | after a failing flush the connection still holds its whole old queue, and the freed prefix is exactly the chunks this flush delivered |
| Connection.WriteErrorKeepsFreedChunks | chatbox.c:271-287 | for every failing flush that delivered at least one chunk, the kept queue starts with a freed chunk and differs from the undelivered suffix the connection should keep |
| Connection.WriteErrorKeepsFreedHead | chatbox.c:271-287 | for two queued chunks with outcomes [Accepted, Failed], the head the connection keeps is the chunk already freed |
| Connection.QueueAfterFlush | chatbox.c:271-287 | the corrected flush keeps only the undelivered suffix, nothing freed stays reachable, and a failing flush leaves a non-empty queue |
| Transform.ToUpper | chatbox.c:120 | the result is never a lower-case letter; it differs from the input exactly when the input is one; a lower-case letter maps to its capital |
| Transform.Upper | chatbox.c:119-121 | the transform keeps the length, a byte changes exactly when it is 'a'..'z', and no lower-case letter remains |
| Transform.Uppercase | chatbox.c:119-121 | the first `nbytes` bytes of the buffer become `Upper` of their old values, and the rest of the buffer is unchanged |
| Transform.UpperIdempotent | chatbox.c:119-121 | transforming twice is transforming once |
| Transform.UpperDistributes | chatbox.c:119-121 | the transform of a concatenation is the concatenation of the transforms |
| Server.Teardown | chatbox.c:135-140 | the pool ends with no connections, count 0 and no write interest; exactly the live descriptors lose read interest; `maxfd` is unchanged; the invariant holds |
| Server.HeadRemoval | chatbox.c:135-140 | removing the head's descriptor from a list of distinct descriptors leaves exactly the tail, and the live descriptors lose only that one |

## Left out

- The socket setup, port parsing, `ioctl(FIONBIO)`, `bind` and `listen` in `main` are process bootstrap and I/O.
- The `select()` loop is OS readiness multiplexing. This covers `accept`, `read` and the dispatch over ready descriptors.
- The SIGINT handler and the `end_server` flag are asynchronous signal handling.
- The pool fields `ready_read_set`, `ready_write_set` and `nready` are used only by the `select()` loop. `initPool` clears them; the model does not carry them.
- `printf`/`perror` logging has no effect on the pool.
- `free` and `close` are resource release. A removed connection, or a delivered chunk, simply leaves the sequences.
- `malloc` is modelled only as success or failure, given as an input.
- The `fd_set` bit layout and the `FD_SET`/`FD_CLR` macros are not modelled. The interest sets are mathematical sets, so descriptors beyond `FD_SETSIZE` are not capped.
- Partial writes are not tracked. The code counts any non-negative `write` result as delivering the whole chunk, and so does the model.
- Transform.ToUpper: covers the C-locale mapping of bytes 0..255 only. Locale-dependent `toupper` and negative `char` arguments are not modelled.
- The `prev`/`next` pointers of the connection list and the `next`/tail pointers of each queue are sequence order in the model. Aliasing and the pointer splice itself are not modelled.
- Server.Teardown saving `next` before each `removeConn` is modelled as a cursor over the list. With sequences, the hazard that saving `next` avoids (reading a freed node) cannot arise.
- The connection traversal of the `select()` loop, which also saves `next` before `removeConn`, is part of the left-out `select()` loop.
- ConnPool.Pool.AddConn: requires that `sd` is not already live. The code does not check for duplicates, and the accepted descriptor is fresh from the kernel.
- ConnPool.Pool.WriteToClient: on a transport error it stores the undelivered suffix of the queue, which is the corrected behaviour under "## Findings". The code as written is modelled by Connection.QueueAfterWriteErrorAsWritten.

## Findings

| source | as written | input that shows it | evidently intended | confidence | as-written member | corrected member |
|---|---|---|---|---|---|---|
| chatbox.c:271-287 | on a write error other than would-block, writeToClient returns -1 at line 277, before line 287 moves `write_msg_head`; the chunks already written and freed in this call stay linked in the connection's queue | a connection with two queued chunks whose first `write` succeeds and whose second fails with an error other than `EWOULDBLOCK`: the queue head is the freed first chunk, so a later flush or removeConn uses or frees it again | advance the head past every delivered chunk before returning -1, so the queue holds only undelivered chunks | high (not executed) | Connection.WriteErrorKeepsFreedHead | Connection.QueueAfterFlush |
