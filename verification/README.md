# ITNS tip bot: verified core

A Dafny model of the parts of the Discord tip bot in which state and arithmetic can go
wrong, with proofs. `dafny verify dfyconfig.toml` checks everything.

Three groups share no state.

**Byte buffers of the asio library shipped with the bot.** Memory is one array of bytes,
a buffer is an address and a size, and a list of buffers is read as one flat byte
sequence (`Buffers.dfy`). On that rest

- `BuffersIterator.dfy`: the random access iterator. The position alone determines where
  an iterator may stand; `++`, `--` and both directions of `advance` land there, so
  `advance(n)` is n single steps, moves undo each other, and a dereference reads the flat
  byte at the position. The cached buffer is unconstrained at the end, where the source
  leaves it stale.
- `BufferCopy.dfy`: all overloads of `buffer_copy` against one flat specification. Lists
  may hold empty buffers anywhere; "no overlap" is said byte by byte.
- `Fifo.dfy`, `Streambuf.dfy`, `DynamicBuffers.dfy`: a bounded byte queue, and the proof
  that `basic_streambuf` and the string and vector buffers all show what the queue shows
  on every trace that commits no more than it prepared: the same sizes, the same throws,
  and the same contents, committed bytes that nobody wrote excepted. Those are equal
  exactly where the buffers hold equal bytes behind the written ones, and they need not
  be. Writes go through the region that `prepare` returned. A `consume` moves the output
  sequence of a string or vector buffer away from it, so that a legal trace of those does
  not write again before the next `prepare` (but may still commit); how far it moves, and
  that the three can be told apart by a caller who writes nevertheless, is proved too.

**The bot's own state machines.** What the wallet processes, the clock and the shuffle
answer are parameters, and so are the Discord messages that code after them depends on
(about new transactions, to a winner, after a gift): theorems hold for all these answers.
A thrown exception is a result.

- `Recency.dfy`, `RpcManager.dfy`, `PoolRuns.dfy`: the bounded pool of wallet processes, and
  what holds over any run of it. Its residents are the most recently requested users; its
  invariant survives a failure at any wallet call; a user who was served keeps the right
  wallet until evicted; what each failure makes of an entry and when its user is served
  again; how many processes run; which transactions a user is told of, and whose history
  is stored.
- `Transfers.dfy`: wallet histories ordered by block height alone, and the search for new
  transactions by a sorted difference.
- `Accounts.dfy`: the guards of the four transfers, and why the sender's RPC pointer
  survives opening the receivers.
- `Lottery.dfy`, `LotteryRun.dfy`: tickets, the jackpot, the draw, and the lottery thread
  over any run of ticks.
- `Faucet.dfy`: the age check, the waiting time, whose record a grant is kept on, and the
  payout over any run of commands.

**The bookkeeping of cereal's archives** (`Archive.dfy`): class versions and shared
pointers, over object graphs that may share objects and have cycles. The stream is bare
32-bit words, so a reader that asked for a record the writer did not emit would read
the wrong word.

## Where the code does not do what it promises

Each has an exact condition, proved for all inputs, and a witness.

- A `prepare` on a `basic_streambuf` that throws has already moved the bytes to the start
  of its vector and left the pointers where they were, so that the input sequence
  survives the exception only under the condition of `Streambuf.FailureKeepsContentsIff`.
  `Streambuf.FailureCanLoseContents` drives a buffer into losing a byte.
- The search for new transactions compares block heights alone. It reports exactly the
  new transactions if and only if the wallet lists the old ones first within each height
  (`Transfers.ExactIffOldItemsFirst`, `Transfers.PollCanReportTheWrongItem`).
- A user is meant to be told of every transaction received (src/RPCManager.cpp:221-245). The
  history is replaced before the messages go out, and the first one that Discord refuses
  ends them: a resident is told everything exactly once if and only if no message about
  something new is refused, and what is refused is never told
  (`PoolRuns.ResidentIsToldOnceIff`, `PoolRuns.RefusedIsNeverTold`).
- A stored history is meant to be the user's own. When a process is taken over and its setup
  fails after opening the wallet, the evicted user's history stays, and the next request
  is served with it (`PoolRuns.ServedWithForeignHistory`). Where any stored history comes
  from is proved exactly (`PoolRuns.HistoryHasOrigin`), and that it is the user's own once
  its own wallet has answered since it was admitted (`PoolRuns.HistoryIsOwn`).
- `max_rpc_limit` is meant to bound the wallet processes (src/RPCManager.cpp:96). An entry
  dropped because its process answers with a foreign wallet (src/RPCManager.cpp:123) leaves
  the process running, so that the processes are the entries plus one for each such loss
  (`PoolRuns.ProcessesAreEntriesAndLeft`, `PoolRuns.OneProcessTooMany`).
- `!gameinfo` says (src/Lottery.cpp:251) that without a winner the jackpot rolls over.
  While the flag `noWinner` stands, whatever the other flags and whoever flips the switch,
  the hour of the sweep gives it away exactly when `rewardGivenout` is set and
  `sweepComplete` is not, and, among the ticks that do not find the thread suspended, the
  wallet answers one and lets a sweep through two or more later
  (`LotteryRun.JackpotGivenAwayIff`, `LotteryRun.JackpotCanBeGivenAway`). That is for a
  draw and a sweep in different hours, as in the default configuration; in the same hour
  the promise is kept over every run (`LotteryRun.EqualHoursRollOver`).
- The faucet's age check subtracts unsigned numbers, so that it also passes accounts whose
  joining lies in the future (`Faucet.OldEnoughIff`, `Faucet.FutureAccountPasses`).

## Model

| member | source | states |
|---|---|---|
| `Buffers.BufferSize` | extern/sleepy-discord/include/asio/buffer.hpp:544-557 | the loop over a list of buffers returns the length of its flat view |
| `Buffers.PlusAndClampSplit` | extern/sleepy-discord/include/asio/buffer.hpp:635-650 | `buffer(b, n)` and `b + n` cut the bytes of b into the first n and the rest, clamped to its size |
| `Buffers.AddressIn` | extern/sleepy-discord/include/asio/buffers_iterator.hpp:341-344 | byte k of buffer i is the flat byte at the sizes before i plus k, also with empty buffers between |
| `Buffers.GatherAppend` | extern/sleepy-discord/include/asio/buffer.hpp:544-557 | the flat view of a list with one more buffer is the flat view followed by that buffer's bytes |
| `BuffersIterator.CanonicalIffCursorAt` | extern/sleepy-discord/include/asio/buffers_iterator.hpp:341-351 | an iterator satisfies "position = bytes before + offset, current buffer not used up or at the end" if and only if it stands at the one place its position determines |
| `BuffersIterator.IncrementedIsNext` | extern/sleepy-discord/include/asio/buffers_iterator.hpp:354-374 | one step forward over any empty buffers stands at the place of the next position |
| `BuffersIterator.DecrementedIsPrevious` | extern/sleepy-discord/include/asio/buffers_iterator.hpp:377-404 | one step back, from the end too, stands at the place of the previous position |
| `BuffersIterator.StepsUndoEachOther` | extern/sleepy-discord/include/asio/buffers_iterator.hpp:354-404 | `--` after `++` and `++` after `--` restore index, offset and position |
| `BuffersIterator.AdvanceIsRepeatedSteps` | extern/sleepy-discord/include/asio/buffers_iterator.hpp:407-485 | the place n bytes on (or back) is where n single steps end, for every n inside the sequence |
| `BuffersIterator.BackwardUndoesForward` | extern/sleepy-discord/include/asio/buffers_iterator.hpp:407-485 | going n bytes one way and n back restores index, offset and position, in either order |
| `BuffersIterator.Iterator.Begin` | extern/sleepy-discord/include/asio/buffers_iterator.hpp:167-184 | a new iterator skips leading empty buffers and stands at position zero |
| `BuffersIterator.Iterator.End` | extern/sleepy-discord/include/asio/buffers_iterator.hpp:187-202 | the end iterator stands past the last buffer, at the total size |
| `BuffersIterator.Iterator.Dereference` | extern/sleepy-discord/include/asio/buffers_iterator.hpp:341-344 | reads the flat byte at the position, through the cached buffer |
| `BuffersIterator.Iterator.Increment` | extern/sleepy-discord/include/asio/buffers_iterator.hpp:354-374 | leads to the place of the next position and keeps the iterator valid, leaving the cached buffer stale at the end |
| `BuffersIterator.Iterator.Decrement` | extern/sleepy-discord/include/asio/buffers_iterator.hpp:377-404 | leads to the place of the previous position; the search back terminates because a non-empty buffer must exist |
| `BuffersIterator.Iterator.Advance` | extern/sleepy-discord/include/asio/buffers_iterator.hpp:407-485 | leads to the place of the position moved by n, either way |
| `BuffersIterator.Iterator.AdvanceForward` | extern/sleepy-discord/include/asio/buffers_iterator.hpp:409-442 | the forward branch: buffer by buffer to the place n bytes on |
| `BuffersIterator.Iterator.AdvanceBackward` | extern/sleepy-discord/include/asio/buffers_iterator.hpp:443-484 | the backward branch, from the end too, to the place n bytes back |
| `BuffersIterator.Iterator.At` | extern/sleepy-discord/include/asio/buffers_iterator.hpp:230-238 | `iter[n]` reads the flat byte n places away |
| `BuffersIterator.Iterator.DistanceTo` | extern/sleepy-discord/include/asio/buffers_iterator.hpp:488-491 | advancing by the distance leads to the other iterator |
| `BuffersIterator.Iterator.Equal` | extern/sleepy-discord/include/asio/buffers_iterator.hpp:348-351 | comparing positions decides whether two iterators stand at the same place |
| `BuffersIterator.Iterator.Less` | extern/sleepy-discord/include/asio/buffers_iterator.hpp:316-319 | `a < b` exactly when some positive number of steps forward leads from a to b |
| `BufferCopy.ScatterAt` | extern/sleepy-discord/include/asio/buffer.hpp:1916-1925 | the specification writes byte p of the source to the address of byte p of the target |
| `BufferCopy.CopyFillsTarget` | extern/sleepy-discord/include/asio/buffer.hpp:1886-1912 | afterwards the flat target is the prefix of the flat source followed by the target's old tail |
| `BufferCopy.CopyTouchesOnlyTarget` | extern/sleepy-discord/include/asio/buffer.hpp:1886-1912 | the source keeps its bytes and no byte outside the copied part of the target changes |
| `BufferCopy.NoLimitIsSizeMax` | extern/sleepy-discord/include/asio/buffer.hpp:2106-2113 | a target that does not overlap itself is so short that the largest `size_t` is no limit |
| `BufferCopy.CopyStep` | extern/sleepy-discord/include/asio/buffer.hpp:2052-2078 | moving k bytes at matching cursors extends the copied prefix by k |
| `BufferCopy.RunsApart` | extern/sleepy-discord/include/asio/buffer.hpp:1916-1925 | lists without a common byte never hand `memcpy` overlapping ranges |
| `BufferCopy.Job.Ends` | extern/sleepy-discord/include/asio/buffer.hpp:2052-2081 | when a list is used up or the limit reached, what is in place is the whole copy |
| `BufferCopy.BufferCopy1` | extern/sleepy-discord/include/asio/buffer.hpp:1916-1925 | moves the smaller size, and nothing else |
| `BufferCopy.CopyOneOne` | extern/sleepy-discord/include/asio/buffer.hpp:1929-1934 | one to one: the flat specification on one-element lists |
| `BufferCopy.CopyOneOneLimited` | extern/sleepy-discord/include/asio/buffer.hpp:1937-1944 | one to one with a limit: the same under the limit |
| `BufferCopy.CopyOneMany` | extern/sleepy-discord/include/asio/buffer.hpp:1947-1967 | one to many: the same |
| `BufferCopy.CopyManyOne` | extern/sleepy-discord/include/asio/buffer.hpp:1970-1990 | many to one: the same |
| `BufferCopy.CopyManyMany` | extern/sleepy-discord/include/asio/buffer.hpp:1993-2034 | many to many: the same, without a limit |
| `BufferCopy.CopyManyManyLimited` | extern/sleepy-discord/include/asio/buffer.hpp:2037-2082 | many to many with a limit: returns the least of both sizes and the limit, and leaves memory as specified; each round finishes a buffer or reaches the limit |
| `BufferCopy.Copy` | extern/sleepy-discord/include/asio/buffer.hpp:2106-2155 | whichever overload the types select, count and memory are those of the one specification |
| `Fifo.FirstInFirstOut` | extern/sleepy-discord/include/asio/basic_streambuf.hpp:33-70 | over every legal trace, old contents plus bytes in equal bytes out plus what remains, in order |
| `Fifo.NeverOverBound` | extern/sleepy-discord/include/asio/basic_streambuf.hpp:66-66 | the queue never holds more than `max_size` |
| `Streambuf.FailureKeepsContentsIff` | extern/sleepy-discord/include/asio/basic_streambuf.hpp:321-341 | a throwing `reserve` keeps the input sequence if and only if nothing had been consumed since the last slide, or the gap swallows the sequence, or the sequence repeats at the gap's length |
| `Streambuf.FailureCanLoseContents` | extern/sleepy-discord/include/asio/basic_streambuf.hpp:214-254 | a new buffer, driven by prepare, write, commit, consume and a failing prepare, holds 3, 3 where it held 2, 3 |
| `Streambuf.BasicStreambuf.constructor` | extern/sleepy-discord/include/asio/basic_streambuf.hpp:131-141 | starts empty and in order for every maximum, zero included |
| `Streambuf.BasicStreambuf.Data` | extern/sleepy-discord/include/asio/basic_streambuf.hpp:192-196 | the region holds exactly the contents |
| `Streambuf.BasicStreambuf.Size` | extern/sleepy-discord/include/asio/basic_streambuf.hpp:158-161 | the pointer difference is the length of the contents |
| `Streambuf.BasicStreambuf.Reserve` | extern/sleepy-discord/include/asio/basic_streambuf.hpp:308-346 | succeeds exactly when contents and n fit the maximum, keeps contents and window order, makes room for n; on failure the contents are exactly those of `AfterFailure` |
| `Streambuf.BasicStreambuf.Prepare` | extern/sleepy-discord/include/asio/basic_streambuf.hpp:214-219 | throws exactly when size plus n exceeds the maximum; else contents stay and n bytes are writable |
| `Streambuf.BasicStreambuf.Commit` | extern/sleepy-discord/include/asio/basic_streambuf.hpp:233-238 | the first n writable bytes, clamped, move behind the contents |
| `Streambuf.BasicStreambuf.Consume` | extern/sleepy-discord/include/asio/basic_streambuf.hpp:247-254 | drops the first n bytes, clamped |
| `Streambuf.BasicStreambuf.Underflow` | extern/sleepy-discord/include/asio/basic_streambuf.hpp:263-274 | shows the first byte, or the end exactly when empty, and changes no contents |
| `Streambuf.BasicStreambuf.Overflow` | extern/sleepy-discord/include/asio/basic_streambuf.hpp:283-306 | appends the character, and throws exactly when the buffer is full |
| `DynamicBuffers.DynamicBuffer.Prepare` | extern/sleepy-discord/include/asio/buffer.hpp:1628-1639 | throws exactly when size plus n exceeds the maximum; else contents stay and n bytes are writable |
| `DynamicBuffers.DynamicBuffer.Commit` | extern/sleepy-discord/include/asio/buffer.hpp:1653-1657 | the first n writable bytes, clamped, move behind the contents, the rest is discarded |
| `DynamicBuffers.DynamicBuffer.Consume` | extern/sleepy-discord/include/asio/buffer.hpp:1666-1671 | drops the first n bytes, clamped |
| `DynamicBuffers.StreambufStep` | extern/sleepy-discord/include/asio/basic_streambuf.hpp:131-346 | one call on a `basic_streambuf` in the queue's state shows what the queue shows, unwritten bytes left open, and leads to its next state |
| `DynamicBuffers.DynamicStep` | extern/sleepy-discord/include/asio/buffer.hpp:1628-1671 | the same for one call on a string buffer |
| `DynamicBuffers.ObserveStreambuf` | extern/sleepy-discord/include/asio/basic_streambuf.hpp:131-346 | every trace of a new `basic_streambuf` that writes into what it prepared and commits no more shows the sizes, throws and written bytes of the queue, up to the first throw |
| `DynamicBuffers.ObserveDynamic` | extern/sleepy-discord/include/asio/buffer.hpp:1779-1822 | every such trace of a vector or string buffer, with no write between a consume and the next prepare, shows the same |
| `DynamicBuffers.ShowTheSame` | extern/sleepy-discord/include/asio/buffer.hpp:1628-1671 | on these traces streambuf and string or vector buffer have the same sizes and throws, and the same contents but for committed bytes nobody wrote; all is the same if every commit keeps to what was written |
| `DynamicBuffers.CommitsAgreeIff` | extern/sleepy-discord/include/asio/basic_streambuf.hpp:233-238 | contents stay the same at a commit of n bytes if and only if what lies behind the written bytes, up to n, is the same in both buffers |
| `DynamicBuffers.StreambufUnwritten` | extern/sleepy-discord/include/asio/basic_streambuf.hpp:308-346 | a byte committed but not written is what the streambuf's vector held |
| `DynamicBuffers.StringBufferUnwritten` | extern/sleepy-discord/include/asio/buffer.hpp:1636-1638 | in the same calls a string buffer shows a zero |
| `Fifo.MeetingIsAgreeing` | extern/sleepy-discord/include/asio/basic_streambuf.hpp:33-70 | any two buffers that show what the queue shows agree in sizes, throws and written bytes |
| `Fifo.WrittenTraceIsWritten` | extern/sleepy-discord/include/asio/basic_streambuf.hpp:221-232 | a trace whose commits keep to what was written never shows a byte nobody wrote |
| `DynamicBuffers.StreambufWrite` | extern/sleepy-discord/include/asio/basic_streambuf.hpp:214-219 | a write through the region of the last prepare is what a commit appends, also after a consume |
| `DynamicBuffers.WriteAfterConsume` | extern/sleepy-discord/include/asio/buffer.hpp:1666-1671 | in a string or vector buffer, a write through a region prepared before a consume shows up in the output sequence as many bytes late as were consumed |
| `DynamicBuffers.LateBytesIff` | extern/sleepy-discord/include/asio/buffer.hpp:1653-1671 | a commit appends such a write as written if and only if nothing was consumed or the written bytes repeat the old ones over and over, at the length consumed |
| `DynamicBuffers.StreambufAfterConsume` | extern/sleepy-discord/include/asio/basic_streambuf.hpp:214-254 | one byte written after one is consumed is what a streambuf commits |
| `DynamicBuffers.StringBufferAfterConsume` | extern/sleepy-discord/include/asio/buffer.hpp:1628-1671 | in the same calls a string buffer commits the byte in front of it |
| `Transfers.ProcessList` | src/RPC.cpp:258-281 | each entry becomes an item with its transaction, payment id and height and its amount, zero if none is given, as often as listed; heights descend, entries of one height keep their order, amounts add up |
| `Transfers.HistoryMirrorsEntries` | src/RPC.cpp:258-281 | the ordered history of any list has each listed entry, field by field, exactly as often as listed, by falling height, in listed order within a height |
| `Transfers.OrderedIsSorted` | src/RPC.h:64-69 | the history is sorted whatever the wallet lists |
| `Transfers.OrderedIsStable` | src/RPC.cpp:275-278 | within a height the history keeps the order in which the wallet listed the items, and loses none |
| `Transfers.OrderedSameItems` | src/RPC.cpp:258-281 | the history holds exactly the listed items, each as often as it is listed |
| `Transfers.DifferenceAtHeight` | src/RPCManager.cpp:216-217 | at each height the difference is the new history's items beyond the number the old one had there |
| `Transfers.SortedDetermined` | src/RPC.h:64-69 | a sorted history is determined by its items at each height |
| `Transfers.PollReportsExactlyTheAdded` | src/RPCManager.cpp:210-219 | when each height's list is the old one with items added at its end, the report is exactly the added items, in history order |
| `Transfers.ExactIffOldItemsFirst` | src/RPCManager.cpp:216-217 | for any grown history, the report is exactly the new items if and only if the wallet lists the old ones first within each height |
| `Transfers.PollCanReportTheWrongItem` | src/RPCManager.cpp:216-217 | a new item listed ahead of an old one of its height is not reported, and the old one is reported again |
| `Transfers.AmountOfItems` | src/RPC.cpp:270-274 | the sum of a history depends on its items, not their order |
| `Transfers.PollConserves` | src/RPCManager.cpp:210-219 | after an exact poll, old items and reported items together are the new history, in items and in amounts |
| `Transfers.EachNewItemReportedOnce` | src/RPCManager.cpp:210-219 | over any run of exact polls, the reports together are exactly what came after the opening snapshot, each item once, amounts conserved |
| `Recency.OldestUnique` | src/RPCManager.cpp:397-403 | least stamp, least user among equals: there is exactly one oldest entry |
| `Recency.OldestIsLeastRecent` | src/RPCManager.cpp:397-403 | the oldest entry is the resident requested least recently |
| `Recency.TouchTracks` | src/RPCManager.cpp:94-128 | one more successful request keeps "the residents are the most recent distinct users" |
| `Recency.PoolIsLeastRecentlyUsed` | src/RPCManager.cpp:90-134 | after any successful requests under a strictly increasing clock, the residents are exactly the most recently requested distinct users, as many as the limit allows or as there are |
| `Recency.ShelteredStays` | src/RPCManager.cpp:96-104 | a request for someone else, failed anywhere or not, does not evict a user while fewer distinct others than the limit have been requested |
| `Recency.LatestStaysResident` | src/RPCManager.cpp:90-134 | over a run of such requests the user served last stays resident |
| `RpcManager.RPCManager.constructor` | src/RPCManager.cpp:31-34 | the empty pool satisfies the invariant |
| `RpcManager.RPCManager.SpinUpNewRPC` | src/RPCManager.cpp:375-389 | a process on the next port, with no wallet open; the counter moves on |
| `RpcManager.RPCManager.FindOldestRPC` | src/RPCManager.cpp:397-403 | returns the one entry with the least stamp, least user among equals |
| `RpcManager.RPCManager.MakeEntry` | src/RPCManager.cpp:94-107 | room or eviction: afterwards there is an entry for the user, on a new process and the next port, or on the process, wallet and history of the evicted user, and exactly that entry is gone |
| `RpcManager.RPCManager.WaitForRPCToRespond` | src/RPCManager.cpp:483-523 | a process that never answers is killed and loses its entry, unless the kill throws; nobody else's entry changes |
| `RpcManager.RPCManager.SetUp` | src/RPCManager.cpp:106-116 | succeeds exactly when the process answers, the wallet opens and the history arrives, with the snapshot as history; says which wallet a failure leaves open, and that the entry goes exactly with a process killed for never answering |
| `RpcManager.RPCManager.CheckOwner` | src/RPCManager.cpp:119-133 | passes only if the process has the user's wallet open; an answer from a foreign wallet drops the entry, one from the own wallet stamps it even if the resync then fails, no answer leaves it as it was |
| `RpcManager.RPCManager.GetAccount` | src/RPCManager.cpp:90-134 | keeps the invariant wherever it fails; returns exactly when the answers serve the user, with the user's own account and wallet; says for every failure whether the entry is dropped, unstamped or stamped, on which port, with which wallet and history, and which processes run; changes at most the entries of the user and of the evicted one |
| `RpcManager.RPCManager.ResyncAccount` | src/Account.cpp:252-262 | takes balances and address over from the wallet, and on failure what had arrived |
| `RpcManager.RPCManager.RestartWallet` | src/RPCManager.cpp:547-579 | keeps the invariant wherever it fails, the stamp, and every other entry; the entry goes exactly with a process killed for never answering; says which wallet is open afterwards |
| `RpcManager.RPCManager.ProcessNewTransactions` | src/RPCManager.cpp:203-248 | for every polled user but the bot the difference from the old history, which the new one replaces, is found and sent up to the first refused message; the round ends exactly at the first user, in key order, whose wallet does not list or does not store |
| `RpcManager.RPCManager.Run` | src/RPCManager.cpp:90-248 | any run of requests, restarts and searches, each failing or not, is a run of the pool's state machine that keeps the invariant |
| `PoolRuns.ResidentsAreMostRecent` | src/RPCManager.cpp:90-134 | over a run of served requests from the empty pool, with searches in between, the residents of the real pool are exactly the most recent distinct users |
| `PoolRuns.StampsFollowTheClock` | src/RPCManager.cpp:127-128 | under a clock that does not run backwards no stamp lies in the future, so that whoever is served next gets the latest |
| `PoolRuns.OwnershipLasts` | src/RPCManager.cpp:112-133 | a user who owns its wallet still does after any requests and restarts of others and any searches, as long as it is resident; only its history may have moved on |
| `PoolRuns.LatestKeepsItsWallet` | src/RPCManager.cpp:112-133 | a user just served stays resident and keeps its own wallet while fewer distinct others than the limit are served, whoever else is restarted |
| `PoolRuns.WalletLasts` | src/RPCManager.cpp:94-133 | whatever wallet a resident's process has open stays open in it while events concern only others |
| `PoolRuns.ResidentIsStampedOrDropped` | src/RPCManager.cpp:119-133 | a resident's request costs the entry if and only if the address comes from a foreign wallet, and stamps it if and only if it comes from the own one, whatever the resync does; no process starts or ends |
| `PoolRuns.NewcomerIsStampedOrDropped` | src/RPCManager.cpp:106-133 | a new user's entry goes if and only if its process is killed for never answering; it is stamped if the setup and the address succeed; a wallet that fails to open leaves what it left open; served exactly when all answers come |
| `PoolRuns.NewcomerTakesOver` | src/RPCManager.cpp:98-104 | in a full pool the one oldest entry goes and nobody else's; its process, port and stamp pass on and nothing is launched |
| `PoolRuns.NewcomerFindsRoom` | src/RPCManager.cpp:96-97 | where there is room nobody goes, and the entry is on a new process on the next port |
| `PoolRuns.StaysOut` | src/RPCManager.cpp:94-128 | nothing but an own request brings a user back into the pool |
| `PoolRuns.DroppedIsSetUpAnew` | src/RPCManager.cpp:94-133 | over any run: a request that drops its entry throws, and the user's next one is served if and only if a process answers it, opens the wallet and gives transfers, address and balances |
| `PoolRuns.HalfOpenedIsServedIff` | src/RPCManager.cpp:107-125 | over any run: a new user whose wallet did not open is refused, and at the next request served if and only if the process has its own wallet open and answers; the entry goes if and only if it has another one open and gives its address |
| `PoolRuns.RestartLeaves` | src/RPCManager.cpp:547-579 | a restart costs the entry if and only if the process is killed for never answering, keeps the stamp, and leaves open what the setup opened |
| `PoolRuns.LaunchesAreEntriesAndLosses` | src/RPCManager.cpp:94-125 | over any run, processes launched are the growth of the pool plus the entries lost, and the pool stays within its limit |
| `PoolRuns.ProcessesAreEntriesAndLeft` | src/RPCManager.cpp:94-125 | over any run from an empty pool, the processes running are one to an entry, plus one for each resident dropped for a foreign wallet |
| `PoolRuns.OneProcessTooMany` | src/RPCManager.cpp:96-125 | in a full pool, one such loss and one new user make limit + 1 processes |
| `PoolRuns.HistoryIsLastList` | src/RPCManager.cpp:210-219 | over any run that starts from a known history, a resident's stored history is the last list of its process, and what is found new are the differences from list to list |
| `PoolRuns.ResidentIsFoundOnce` | src/RPCManager.cpp:203-248 | over any run, while a user stays resident and its wallet lists old items first, every transaction after the known history is in exactly one difference and amounts add up |
| `PoolRuns.FoundIsToldOrLost` | src/RPCManager.cpp:221-245 | what is found new is told or lost, and something is lost if and only if a message about something new is refused |
| `PoolRuns.RoundReaches` | src/RPCManager.cpp:210-246 | a round reaches exactly the users before whom, in key order, every wallet lists and stores what is new (or Poco refused a message first), and completes if and only if all do |
| `PoolRuns.ResidentIsToldOnceIff` | src/RPCManager.cpp:203-248 | such a user is told every transaction exactly once if and only if no message about something new is refused |
| `PoolRuns.RefusedIsNeverTold` | src/RPCManager.cpp:219-245 | one refused message: the transaction is not sent, and the next search finds nothing |
| `PoolRuns.HistoryHasOrigin` | src/RPCManager.cpp:99-116 | over any run from an empty pool, failures included, a resident's history is the list of its origin: its opening snapshot, its last restart or poll, or, inherited with the process, the evicted user's |
| `PoolRuns.HistoryIsOwn` | src/RPCManager.cpp:109-122 | the origin is the user's own wallet once that has given a list since the user was admitted and no search has asked another wallet after it |
| `PoolRuns.ServedWithForeignHistory` | src/RPCManager.cpp:99-133 | with room for one: user 2 is served, in its own wallet, with the history of user 1 |
| `RpcManager.NewPorts` | src/RPCManager.cpp:379-386 | a new process gets a port no entry has |
| `RpcManager.ReusedPorts` | src/RPCManager.cpp:100-103 | handing the oldest process on keeps all ports distinct |
| `Accounts.CheckAddressTransfer` | src/Account.cpp:163-179 | lets through exactly a valid length, an amount above zero and below the unlocked balance, and someone else's address; tells every error apart in the source's order |
| `Accounts.OpenSender` | src/RPCManager.cpp:119-133 | a user served later than all before is a safe sender: nobody's stamp is as late |
| `Accounts.Resync` | src/Account.cpp:75-76 | refreshing the sender keeps it resident, stamped as before and in its own wallet |
| `Accounts.OpenReceiver` | src/Account.cpp:90-90 | opening the receiver succeeds exactly when the pool serves it and never evicts the sender |
| `Accounts.TransferMoneyToUser` | src/Account.cpp:70-114 | pays exactly when every guard passes, out of the sender's own wallet to the receiver's address, and keeps the sender resident |
| `Accounts.TransferAllMoneyToUser` | src/Account.cpp:116-153 | the same for everything unlocked |
| `Accounts.TransferMoneyToAddress` | src/Account.cpp:155-188 | pays exactly when every guard passes, out of the sender's own wallet; a note that fails comes after the payment |
| `Accounts.TransferAllMoneyToAddress` | src/Account.cpp:190-217 | the same for everything unlocked |
| `Accounts.Give` | src/Tip.cpp:158-180 | with fewer distinct receivers than the pool's limit, a gift to many pays user after user, out of the sender's own wallet to the address of the user mentioned, and stops early exactly at the first gift that throws |
| `Lottery.Jackpot` | src/Lottery.cpp:264-277 | shows the balance the draw plays for: by `BalanceAndSettledAreAll`, all amounts above the watermark |
| `Lottery.MyTickets` | src/Lottery.cpp:303-318 | shows the whole tickets in the sum of the user's deposits above the watermark |
| `Lottery.AboveIsInPlay` | src/Lottery.cpp:148-150 | a deposit is in play as often as the history has it if its height is above the watermark, and else not at all |
| `Lottery.OwnAboveIsInPlay` | src/Lottery.cpp:309-312 | a user's deposits in play are exactly the own ones above the watermark |
| `Lottery.BalanceAndSettledAreAll` | src/Lottery.cpp:268-273 | the balance in play and the amounts at or below the watermark are all of the history |
| `Lottery.TicketsArePaid` | src/Lottery.cpp:152-152 | an amount is n tickets if and only if it pays for n and not for n + 1 |
| `Lottery.EntryHasDeposit` | src/Lottery.cpp:148-157 | every entry was paid for by an active deposit worth a whole ticket |
| `Lottery.EntriesOfUser` | src/Lottery.cpp:148-157 | a user has one entry for each whole ticket of each own deposit |
| `Lottery.TicketsShownAndDrawn` | src/Lottery.cpp:152-154 | the draw gives a user at most the tickets shown, and fewer by less than the number of the user's active deposits |
| `Lottery.BoughtAreExact` | src/Lottery.cpp:279-301 | deposits of whole ticket prices lose nothing to rounding, one by one or together |
| `Lottery.BoughtTicketsAllDrawn` | src/Lottery.cpp:279-301 | who only bought whole tickets draws with every ticket shown |
| `LotteryRun.Rounds` | src/Lottery.cpp:162-164 | the loop over blank tickets runs the rounded-up number of times |
| `LotteryRun.DrawnSize` | src/Lottery.cpp:161-167 | n entries become n plus the rounded-up share of blanks, under any shuffle |
| `LotteryRun.DrawnOwnsATicket` | src/Lottery.cpp:161-171 | under any shuffle the first entry is a blank or owns an active deposit worth a ticket |
| `LotteryRun.ShuffledHoldsEveryTicket` | src/Lottery.cpp:148-169 | the list the draw shuffles holds every user as often as its deposits above the watermark buy tickets, under any shuffle |
| `LotteryRun.WinPlaysAllAbove` | src/Lottery.cpp:148-175 | a winning draw plays every deposit of its history above the old watermark, as often as it was made, and its balance is what the rest of the history leaves |
| `LotteryRun.JackpotZeroAfterWin` | src/Lottery.cpp:174-174 | right after a winning draw the jackpot of the same history is zero |
| `LotteryRun.RewardOf` | src/Lottery.cpp:175-175 | the reward is the share of the balance, rounded down |
| `LotteryRun.LotteryThread.Collect` | src/Lottery.cpp:140-157 | the loop yields the entries of the active deposits and their balance |
| `LotteryRun.LotteryThread.AddBlanks` | src/Lottery.cpp:161-164 | appends exactly the blanks |
| `LotteryRun.LotteryThread.Draw` | src/Lottery.cpp:135-202 | a win plays the deposits above the old watermark of the history that the wallet listed, raises the watermark to its top, pays the share to a ticket owner; any exception suspends and leaves done what was done |
| `LotteryRun.LotteryThread.Sweep` | src/Lottery.cpp:206-223 | moves the money exactly when the wallet answers, somebody won or nobody drew, and the transfer goes out; the flags change only without an exception |
| `LotteryRun.LotteryThread.OneTick` | src/Lottery.cpp:127-236 | one look at the clock draws, sweeps, resets or waits, as flags, day and hour say, and moves flags and watermark accordingly; what that means hour by hour is said by the next rows |
| `LotteryRun.DrawOnlyInItsHour` | src/Lottery.cpp:129-132 | a winner or a draw without one comes only at a live tick on the configured day, in the hour of the draw, with both flags clear |
| `LotteryRun.DrawInItsHour` | src/Lottery.cpp:132-202 | such a tick draws if and only if there are entries; the first of the shuffle wins or is a blank, and each flag, suspension and payment is what the answers make it |
| `LotteryRun.SweepOnlyInItsHour` | src/Lottery.cpp:204-206 | a sweep comes only at a live tick on that day, in the hour of the sweep, once, and moves money only if nobody drew a blank |
| `LotteryRun.SweepInItsHour` | src/Lottery.cpp:204-223 | such a tick sweeps unless the draw comes first; money and flags follow from the answers |
| `LotteryRun.ResetIff` | src/Lottery.cpp:227-232 | the flag of the draw falls if and only if a live tick finds the sweep done, or a blank before closing time outside the sweep's hour |
| `LotteryRun.QuietTickDoesNothing` | src/Lottery.cpp:132-232 | outside these hours, with no reward out, nothing changes |
| `LotteryRun.SuspendedTickDoesNothing` | src/Lottery.cpp:129-129 | a tick that finds the thread suspended changes nothing; only a draw or the switch suspends |
| `LotteryRun.NoSecondDraw` | src/Lottery.cpp:132-232 | over any run there is a reset between two successful draws |
| `LotteryRun.LotteryThread.Run` | src/Lottery.cpp:119-239 | any run of ticks is a run of the lottery's state machine, each win and payment coming from its tick's answers; all rewards paid stay within the share of whatever deposits contain all lists answered |
| `LotteryRun.RunIsChained` | src/Lottery.cpp:148-174 | the winning draws of any run form a chain of rising watermarks |
| `LotteryRun.RunPaysWithinShare` | src/Lottery.cpp:148-188 | over any run whose lists contain only deposits made, all rewards paid stay within the share (one less the donation) of all deposits made |
| `LotteryRun.RunGivesAway` | src/Lottery.cpp:204-232 | over the ticks of a sweeping hour, the switch flipped or not, a run moves the money out exactly if the flags at its start and the answers say so |
| `LotteryRun.ChainOrdered` | src/Lottery.cpp:150-174 | a later winning draw starts at or above the top of every earlier one |
| `LotteryRun.DepositsDisjoint` | src/Lottery.cpp:150-174 | no deposit is played in two winning draws of a run |
| `LotteryRun.PlayedAtMostOnce` | src/Lottery.cpp:148-174 | all winning draws together play each deposit no more often than it was made |
| `LotteryRun.RewardsWithinShareOfAllDeposits` | src/Lottery.cpp:175-178 | the rewards of any chain of draws stay within the share of all deposits made |
| `LotteryRun.JackpotGivenAwayIff` | src/Lottery.cpp:204-232 | whatever the flags while `noWinner` stands, the sweeping hour gives the jackpot away if and only if the draw's flag is set and the sweep's is not, one live tick's resync answers and a live tick two or more later lets the sweep through |
| `LotteryRun.OnlyLiveTicksCount` | src/Lottery.cpp:129-129 | ticks that find the thread suspended neither help nor hurt |
| `LotteryRun.EqualHoursRollOver` | src/Lottery.cpp:132-232 | with draw and sweep in one hour, over any run of any ticks, no money is swept before a draw has found a winner |
| `LotteryRun.JackpotCanBeGivenAway` | src/Lottery.cpp:204-232 | three answered ticks give it away |
| `Faucet.OldEnoughIff` | src/Faucet.cpp:113-113 | the age check passes exactly the accounts that are old enough and those whose joining lies, not too far, in the future |
| `Faucet.FutureAccountPasses` | src/Faucet.cpp:104-113 | every account passes one microsecond before it is made, whatever age is asked for |
| `Faucet.JoinTimeIsInTheId` | src/Discord.cpp:107-107 | the time of joining is the milliseconds since 2015 in the id's upper bits, in microseconds since the epoch |
| `Faucet.Faucet.TransferMoneyToAddress` | src/Account.cpp:155-188 | takes amount and fee out of the funds exactly when every guard and the wallet let it |
| `Faucet.Faucet.Take` | src/Faucet.cpp:94-138 | pays exactly when all checks pass, the share of what is unlocked; a known user's grant is kept on the own record, whose waiting time and total alone move, and only if the note was stored too; an unknown user's on record zero |
| `Faucet.PaysIff` | src/Faucet.cpp:94-138 | a command pays if and only if the faucet is on, the wallets answer and let the transfer out, and the user's own record (of someone unknown: record zero) is old enough and done waiting |
| `Faucet.OneMoreGrant` | src/Faucet.cpp:119-122 | a grant of at most the share keeps the lower bound on the funds |
| `Faucet.Faucet.Run` | src/Faucet.cpp:94-138 | over any run of commands, deposits and switches: after k grants funds and fees are at least initial x (1 - share)^k; money is conserved; two grants kept on one record, and two to one known user, are more than the timeout apart; each known user's record is what the grants to that user alone made of it |
| `Archive.MarkIsTheTopBit` | extern/cereal-1.2.2/include/cereal/cereal.hpp:304-318 | the mark of a new pointer is the highest of the id's 32 bits, and the id is the others |
| `Archive.RegisterTracks` | extern/cereal-1.2.2/include/cereal/cereal.hpp:304-318 | ids stay distinct, consecutive and below the top bit; the top bit is set exactly for a pointer met the first time |
| `Archive.SaveThenLoad` | extern/cereal-1.2.2/include/cereal/types/memory.hpp:260-345 | from any point at which writer and reader are in step, reading undoes writing and leaves them in step |
| `Archive.VersionedReadsBack` | extern/cereal-1.2.2/include/cereal/cereal.hpp:881-897 | the reader asks for a version record exactly where the writer emitted one, and gets the writer's version |
| `Archive.NewPointerInStep` | extern/cereal-1.2.2/include/cereal/cereal.hpp:690-694 | registering an object before its contents are read keeps the tables in step, so that a cycle finds it |
| `Archive.RoundTrip` | extern/cereal-1.2.2/include/cereal/types/memory.hpp:260-345 | an archive of any values over any object graph reads back to its last word: values and all reached objects are the originals, pointers renamed one to one |
| `Archive.WrittenOnce` | extern/cereal-1.2.2/include/cereal/types/memory.hpp:260-273 | an archive has one word for each number and pointer in what it was given and in each object reached, counted once, and one for the version of each class met |
| `Archive.RenamedIsOneToOne` | extern/cereal-1.2.2/include/cereal/cereal.hpp:673-683 | renamed values are equal exactly when the originals were, null only if null |
| `Archive.IdentityIsKept` | extern/cereal-1.2.2/include/cereal/cereal.hpp:296-318 | what is read at two places is equal exactly when what was written there was: one object stays one, two stay two, null stays null |
| `Archive.OutputArchive.RegisterSharedPointer` | extern/cereal-1.2.2/include/cereal/cereal.hpp:304-318 | the archive's table, counter and returned id move as specified |
| `Archive.OutputArchive.RegisterClassVersion` | extern/cereal-1.2.2/include/cereal/cereal.hpp:489-501 | a version word goes out the first time a class is met, never again |
| `Archive.OutputArchive.Process` | extern/cereal-1.2.2/include/cereal/types/memory.hpp:260-273 | writes exactly the words that `RoundTrip` reads back, recursion through cycles included |
| `Archive.InputArchive.GetSharedPointer` | extern/cereal-1.2.2/include/cereal/cereal.hpp:673-683 | null for zero, the registered object for its id, else an exception |
| `Archive.InputArchive.LoadClassVersion` | extern/cereal-1.2.2/include/cereal/cereal.hpp:881-897 | takes a word from the stream exactly when the class is new |
| `Archive.InputArchive.Process` | extern/cereal-1.2.2/include/cereal/types/memory.hpp:322-345 | computes exactly the reading that `RoundTrip` is about, exceptions included |

## Left out

- Networking, JSON, files, logging, sleeping and command parsing, and Discord messages that nothing depends on: where modelled at all, they are answers that may fail.
- Threads: each locked method is one atomic step, and the shared `Tip::MyAccount` pointer is not modelled.
- Sockets, timers, executors and the other parts of asio: they are I/O or forwarding.
- Memory as separate objects: all buffers lie in one address space, and pointer arithmetic cannot overflow.
- BufferCopy.CopyManyMany: does not model the wrap of the returned `size_t`, which only target and source lists that repeat memory could reach.
- Streambuf.BasicStreambuf.Commit: does not model the `int` cast in `pbump`; sizes are unbounded.
- Streambuf.BasicStreambuf.Consume: does not model the `int` cast in `gbump` or a pointer sum past the address space.
- DynamicBuffers.DynamicBuffer.Prepare: one class stands for the string and the vector buffer, whose bodies agree.
- RpcManager.RPCManager.SpinUpNewRPC: does not model the wrap of the 16-bit port counter; every statement holds until then.
- RpcManager.RPCManager.GetAccount: a launch that throws is not modelled, since what it leaves in the map depends on unspecified evaluation order.
- RpcManager.RPCManager.RestartWallet: a relaunch that throws is not modelled.
- Process ids, `RPCFail`, the watchdog, and the timer loop of `RPCManager::run`, which only decides when the modelled rounds happen.
- `load` and `ReloadSavedRPCs`: the pool starts empty.
- The wallet address files: each is taken to exist and to hold its user's address.
- Accounts.TransferMoneyToUser: the text of the messages and the transaction hash are not modelled.
- Floating point: quotients and shares are exact reals or fractions, and a conversion to an integer rounds down. `Lottery.BoughtAreExact` holds where the price of the tickets is a whole number of coin units.
- LotteryRun.LotteryThread.Collect: does not model the 32-bit ticket counter and loop variable or the 64-bit sum of amounts.
- Lottery.Jackpot: resyncing first and formatting the answer are not modelled.
- The lottery's `save`, `load` and status commands, and the configuration.
- Faucet.Faucet.Run: takes the clock plus the timeout to stay below 2^64 microseconds.
- Faucet.Faucet.Take: what opening the bot's account does to the pool is not modelled here; it is `RpcManager.RPCManager.GetAccount`.
- Archive.RoundTrip: fewer than 2^31 distinct objects, each at an address of its own; polymorphic names follow the same scheme and are left out, as are weak and unique pointers.
- Withdrawal switches, tip statistics and the other commands: they would only add easy members.
