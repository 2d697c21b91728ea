# Verified model of the WhatsApp daemon's history store

The daemon keeps a local, bounded copy of a WhatsApp account: chats, messages, receipts, read
boundaries, reactions and poll votes reach it late, twice and out of order, from live traffic, from
history replay and from other devices. This project models that store and three of its neighbours,
and proves that they end in the right state.

* **The history database** (`crates/daemon/src/database.rs`). `Schema.dfy` gives the tables as one
  value: maps keyed by the SQL primary keys, each chat's messages as a sequence in rowid order.
  `History`, `Retention`, `Tallies`, `Polls`, `ReadState`, `Clearing`, `Receipts`, `Reactions`,
  `ReadOutbox`, `TextOutbox` and `Merging` say what one transaction does to that value and prove what
  it means. `Effects`, `Sweeps`, `Reading` and `Unions` state what messages, names, media and replayed
  chats, clears and deletes, read events and the alias merge leave, column by column and in terms of
  the rows there were before, without the functions that compute it. `Store.dfy` is the
  database object itself: a class with one field per table, whose methods follow the source's
  transactions statement by statement and loop by loop, each proved to move the tables as specified
  and to return the flag the source returns.
* **Whole runs.** `Soundness` states what every chat keeps, and `Runs` proves it of every sequence of
  transactions from an empty database. `PollRuns` and `VoteRuns` do the same for poll cards and vote
  rows, `Once` for what a message that comes back may add. `Batching`, `Replays` and `Calls` compare
  the one-transaction replay of a conversation with its message-by-message replay, `Commuting` swaps a
  read boundary with the message it covers, and `Counterexamples` shows why the conditions on those
  results are there.
* **The durable inbox** (`crates/daemon/src/events.rs`, `messages.rs`): `Inbound`, `Reducer` and
  `Waiting`, which follows a vote that comes before its poll.
* **Connection intents** (`connections.rs`, `presence.rs`): `Connections` and `Presence`.
* **The launcher block editor** (`crates/ctl/src/main.rs`): `Launcher`.

Timestamps are unbounded integers; only `saturating_sub(1)` at the smallest `i64` is written out. The
retention bound is the parameter `keep`, 1000 in the source. Where SQL leaves ties open the model
fixes an order: retention keeps the earlier rowid, `WHERE chat_jid = ? AND id = ?` yields the earlier
rowid, the failures of the text outbox are ordered by delivery id. A transaction is atomic, so a crash
falls between two of them.

Four results hold under conditions the source does not mention:

* The comment on `insert_history_conversation` promises the per-message rules "in slice order". The
  changed flag, the contacts, the settings, the tombstones, the queues, every other chat and the
  chat's row in the list but for its preview text are always as promised (`Calls.CallAgrees`). The
  messages, and the votes and reader entries with them, are if and only if the newest of what is
  offered are what stays when every message is pruned for; and all tables are if and only if the
  previews agree as well (`Calls.CallIsSequentialIff`). Both conditions are computed from the arguments
  and the tables before the call. They fail when a message that retention would have evicted is
  offered again with a newer timestamp: replayed one by one it comes back, in the batch its first
  copy shadows it (`Counterexamples.NewerCopyDiverges`, for every bound), and a GIF may then label the
  preview in one replay only (`Counterexamples.GifLabelDiffers`). That no copy returns is exact for
  agreement on every prefix of the conversation (`Calls.BatchIsSequentialIff`), and more than one call
  needs (`Counterexamples.ReturnedThenEvicted`). No copy returns when copies are never newer
  (`Calls.SteadyBatchIsSequential`) or nothing overflows (`Calls.BatchWithinBound`).
  All but `Calls.CallAgrees` and `Calls.BatchWithinBound` ask that every message finds its id
  undivided or brings nothing filed by id: media, votes and reader entries are filed by message id
  without its sender, so it matters if of several messages under one id some have been evicted and some
  not, or a new one comes after one has gone. One sender to an id is enough
  (`Calls.OneSenderSettles`); `Counterexamples.SharedIdDiverges` is an input without.
* The generated launcher block can be found again exactly when no entry holds a marker
  (`Launcher.MenuSurvivesIff`). Chat titles become entries trimmed and JSON-escaped, which leaves a
  marker inside a title as it is; `Launcher.MarkedEntryLost` is what happens then.
* A read boundary and the message it covers commute on every row, but on the badge exactly unless the
  chat is full and evicts an unread row the boundary does not cover (`Commuting.BoundaryCommutes`): a
  boundary recounts, an insert only adds. `Counterexamples.BadgeDependsOnOrder` is an input for every
  bound.
* Reactions converge exactly when the adds at the winning timestamp are the same
  (`Reactions.ReactionsConvergeIff`): equal times go to the last arrival.

`dafny verify dfyconfig.toml` checks the whole project.

## Model

| member | source | states |
|---|---|---|
| Calls.CallIsSequentialIff | crates/daemon/src/database.rs:1596-1686 | With every id undivided, the messages of one call are those of the message-by-message replay, every column, if and only if the newest `keep` of what is offered are what stays when every message is pruned for; votes and reader entries then agree too; and all tables and the flag are if and only if the previews told by the arguments agree as well |
| Calls.CallAgrees | crates/daemon/src/database.rs:1596-1686 | For any messages the flag, the contacts, the settings, the tombstones, the queues, every other chat and the chat's own row but its preview text agree, and the chat list does if and only if the previews do |
| Calls.NoGifSamePreview | crates/daemon/src/database.rs:2848-2873 | Without a GIF among the messages the previews agree, and so the chat list |
| Calls.BatchIsSequentialIff | crates/daemon/src/database.rs:1596-1686 | With every id undivided, the batched replay equals the sequential one, tables and flag, on every prefix of the conversation if and only if no unsuppressed copy of a message the newest `keep` leave out is newer than one of those |
| Replays.ReplaysTied | crates/daemon/src/database.rs:1603-1643 | With every id undivided, whatever the one-by-one replay holds the unpruned batch has, of the same time as the same row with the same votes and readers and in the same order, and what it lacks is no newer than anything it holds |
| Replays.TrickledShape | crates/daemon/src/database.rs:1596-1616 | The keys and timestamps the one-by-one replay will hold can be read off its arguments and the tables before it |
| Calls.BatchIsSequential | crates/daemon/src/database.rs:1596-1643 | With every id undivided, the batched replay refines the message-by-message one, every table and the changed flag, while no copy returns |
| Calls.OneSenderSettles | crates/daemon/src/database.rs:1596-1616 | With one sender to each id, stored or replayed, no id is ever divided |
| Calls.BatchWithinBound | crates/daemon/src/database.rs:1603-1616 | Without overflow the two replays agree for any senders, duplicates and media |
| Calls.SteadyBatchIsSequential | crates/daemon/src/database.rs:1596-1643 | With every id undivided, a replay whose copies are never newer than what they copy equals the sequential one |
| Calls.HistoryMessagePrunes | crates/daemon/src/database.rs:1619-1643 | Pruning before one replayed message is absorbed by pruning after it, although name, insert and media ran in between, unless the message resurfaces or finds its id divided |
| Batching.MessageDiverges | crates/daemon/src/database.rs:1619-1643 | A resurfacing message ends stored in the sequential replay and not in the batch |
| Batching.OfferedShape | crates/daemon/src/database.rs:1603-1643 | The keys and timestamps the batch will hold can be read off its arguments and the tables before it |
| Counterexamples.NewerCopyDiverges | crates/daemon/src/database.rs:1596-1616 | For every bound there is a full chat and a two-message replay on which batch and sequence differ |
| Counterexamples.ReturnedThenEvicted | crates/daemon/src/database.rs:1596-1616 | A replay in which a copy returns and which yet ends with the same rows, so agreement of one call is less than agreement of every prefix |
| Counterexamples.GifLabelDiffers | crates/daemon/src/database.rs:2848-2873 | A replay that ends with the same messages and flag but another preview, so the second condition does not follow from the first |
| Counterexamples.SharedIdDiverges | crates/daemon/src/database.rs:2853-2864 | With one id under two senders the batch files media on the other sender's message, the sequence does not |
| Counterexamples.TombstonesDependOnOrder | crates/daemon/src/database.rs:1918-1971 | The reaction tombstone row depends on arrival order although what shows does not |
| Retention.RetainIsTopK | crates/daemon/src/database.rs:1490-1495 | A row survives pruning if and only if fewer than `keep` rows are ahead of it, newer first, earlier rowid on ties |
| Retention.RetainAppend | crates/daemon/src/database.rs:1490-1495 | Keeping the newest after every insert equals keeping them once at the end |
| Retention.RetainEdit | crates/daemon/src/database.rs:1490-1495 | Pruning commutes with every update of columns |
| Retention.EvictedIsOlder | crates/daemon/src/database.rs:1490-1495 | No evicted row is newer than a kept one |
| Store.RetainNewest | crates/daemon/src/database.rs:1490-1495 | Evicting the oldest, latest-inserted row while there are too many leaves the rows specified by rank |
| Store.Database.PruneChatHistory | crates/daemon/src/database.rs:1488-1512 | The chat keeps its newest rows, and votes and reader rows of evicted messages go with them |
| Effects.PrunedTables | crates/daemon/src/database.rs:1488-1512 | Votes and reader entries of the chat stay exactly while a message that is left has their id; no other chat and no other table is touched |
| Store.Database.InsertMessageInto | crates/daemon/src/database.rs:1347-1486 | Suppressed messages change nothing; otherwise preview, badge, row and read intent move together, and the flag is true exactly when a row was stored |
| Store.Database.StoreMessage | crates/daemon/src/database.rs:1387-1486 | Table by table what an unsuppressed insert leaves: the badge rises exactly when a new row is unread, a stored key is ignored |
| Effects.NewMessage | crates/daemon/src/database.rs:1367-1465 | Told without the specification of a row: a message that is neither suppressed nor stored appends one row with its text, time, direction, receipt, times, media and quote, under the address-book name if there is one; the row is unread if and only if it counts, is newer than the read boundary and is not named by it; and then the badge shows one more |
| Effects.OldMessage | crates/daemon/src/database.rs:1367-1465 | Any other message leaves rows and badges alone, and a suppressed one leaves everything alone |
| Effects.StoresIff | crates/daemon/src/database.rs:1367-1385 | A message is stored exactly when it is neither tombstoned nor within the cleared window nor there under its key |
| Effects.MessagePreviewed | crates/daemon/src/database.rs:1358-1418 | The preview follows the message that is not older, the time never falls, a title is given only to a new chat row, and only a live message takes back a deletion |
| Effects.IntentQueued | crates/daemon/src/database.rs:1466-1485 | A read intent makes the chat pending since the earliest intent and queues its receipt once, at the end |
| Effects.MessageTouches | crates/daemon/src/database.rs:1347-1486 | Nothing but the chat, its rows, its settings and the two queues is touched |
| Store.Database.InsertAndPruneMessage | crates/daemon/src/database.rs:1336-1343 | One insert followed by its chat's retention |
| Store.Database.UpdateContactNameInto | crates/daemon/src/database.rs:1704-1743 | A name applies unless blank or outranked; then the contact, its direct chat and every message of the sender carry it |
| Effects.NameTaken | crates/daemon/src/database.rs:1704-1743 | A name that is neither blank nor outranked is trimmed and becomes the contact's, stands on every message of the sender in every chat and on no other, and titles a direct chat unless its title outranks it |
| Effects.NameRefused | crates/daemon/src/database.rs:1710-1722 | A blank or outranked name changes nothing |
| Prelude.TrimIs | crates/daemon/src/database.rs:1710-1726 | Trimming takes spaces off both ends, all of them, and nothing else |
| Store.Database.UpdateMessageMediaInto | crates/daemon/src/database.rs:2780-2875 | Media is merged with what was stored, poll tallies come from the vote table, a GIF relabels text and preview; the flag is true exactly when a row changed |
| Schema.FindIdIsFirst | crates/daemon/src/database.rs:2790-2804 | The row looked up under a chat and an id is the first that has it |
| Effects.MediaFiled | crates/daemon/src/database.rs:2780-2864 | Every row under the id takes the media and no other row moves: a poll keeps its question and options and is counted, a location keeps the preview and duration it does not bring, anything else is taken as it comes, and a GIF relabels its text |
| Effects.MediaPreviewed | crates/daemon/src/database.rs:2848-2873 | The preview turns from "[Video]" into "[GIF]" exactly if the media is a GIF and the newest message, the earlier one on ties, has the id; no other chat moves |
| Store.CarryCounts | crates/daemon/src/database.rs:2813-2842 | The counts carried over from the previous card never survive the reconciliation that follows |
| Store.Database.InsertHistoryChatInto | crates/daemon/src/database.rs:1645-1686 | A deleted chat stays away; otherwise the row is inserted, or titled only if it had no title |
| Effects.HistoryChatInserted | crates/daemon/src/database.rs:1645-1686 | A deleted chat stays away, a chat that is not there is inserted as it comes |
| Effects.HistoryChatUpdated | crates/daemon/src/database.rs:1660-1686 | A chat that is there keeps preview, badge and phone number, its time only moves forward, and it is titled only if it had no title |
| Store.Database.InsertHistoryMessageInto | crates/daemon/src/database.rs:1619-1643 | Name, then message, otherwise its media, with the flag of whichever applied |
| Effects.ReplayedIsRead | crates/daemon/src/database.rs:1619-1643 | A replayed message that is new is stored read, never counts, and moves neither settings nor queues |
| Effects.ReplayFlagExact | crates/daemon/src/database.rs:1619-1643 | The flag of a replayed message is true if and only if, beyond the sender's name, some row of the chat was stored or rewritten |
| Store.Database.InsertHistoryConversation | crates/daemon/src/database.rs:1603-1616 | The loop over the conversation leaves the batch result and flag, with one pruning at the end |
| Runs.ReachableIsSound | crates/daemon/src/database.rs:1347-2765 | In every state reachable without alias merge or account reset, every chat has unique bounded keys, no orphaned vote or reader rows, a badge that never under-counts, covered messages read, at most 256 distinct boundary ids, nothing tombstoned stored and everything stored newer than a positive watermark |
| Runs.ApplySound | crates/daemon/src/database.rs:1347-2765 | Every single transaction keeps those invariants of every chat |
| Runs.ApplyAdvances | crates/daemon/src/database.rs:2503-2765 | No transaction lowers a watermark or boundary, drops a tombstone, or turns a stored row from read to unread |
| Store.RunFromEmpty | crates/daemon/src/database.rs:654-826 | A database object driven by any sequence of transactions holds what the run says, and every chat of it is sound |
| Store.Database.Handle | crates/daemon/src/database.rs:1302-2875 | Each transaction of a run is performed by the method that models it |
| Runs.NoResurrection | crates/daemon/src/database.rs:1367-1385 | Whatever runs afterwards, a stored row is not tombstoned in the earlier state and is newer than its positive watermark |
| Runs.ClearedStaysCleared | crates/daemon/src/database.rs:2659-2687 | After clearing a chat up to a time, no run ever stores anything from up to that time in it |
| Runs.DeletedChatStaysDeleted | crates/daemon/src/database.rs:2626-2657 | The same after deleting a chat |
| Runs.DeletedMessageStaysDeleted | crates/daemon/src/database.rs:2729-2765 | After deleting a message, no run ever stores its id in that chat again |
| Runs.BadgeRestored | crates/daemon/src/database.rs:2577-2588 | A boundary, a clear or chat delete that is not stale, and a reconcile leave a badge equal to the stored unread count |
| Store.Database.ApplyReadBoundary | crates/daemon/src/database.rs:2503-2594 | Boundary and id list grow as specified, the covered and named rows are read, the badge is recounted, and the flag says whether any of it moved |
| Reading.BoundaryReaches | crates/daemon/src/database.rs:2503-2594 | The boundary is the greater of the old one and its own second, or the second before if it names messages; what becomes read is exactly what is incoming and at or before it or named; the badge is the number of unread rows left |
| Reading.IdsKept | crates/daemon/src/database.rs:2519-2553 | The ids kept are the stored and the named ones that no message at or before the boundary answers, stored ones first, and past 256 the latest |
| Reading.BoundaryFlag | crates/daemon/src/database.rs:2589-2593 | The flag is true only if something moved, and without it rows, chats, boundary and marker are as they were |
| Reading.RepeatIsIdle | crates/daemon/src/database.rs:2503-2594 | A boundary repeated reports no change |
| ReadState.MarkRowsExact | crates/daemon/src/database.rs:2564-2576 | The update statements mark exactly the incoming rows that are covered or named |
| Commuting.BoundaryCommutes | crates/daemon/src/database.rs:2511-2588 | On a chat within its bound, a boundary and a new message give the same rows in either order, and the same badge if and only if the chat is not full or the row that goes is read or covered by the boundary |
| Counterexamples.BadgeDependsOnOrder | crates/daemon/src/database.rs:2577-2588 | For every positive bound there is a full chat and a message for which the badge is smaller when the boundary comes last |
| Commuting.BornAsMarked | crates/daemon/src/database.rs:1419-1432 | A message arriving under a boundary is stored as the boundary would have marked it |
| Runs.SyncedSound | crates/daemon/src/database.rs:2226-2277 | A read event from another device keeps every invariant, moves nothing back, changes nothing if stale, and its time becomes the last otherwise |
| Runs.SelfReadExact | crates/daemon/src/database.rs:2596-2624 | A self read receipt reads the named messages, those before its boundary, and no others |
| Store.Database.MarkRead | crates/daemon/src/database.rs:2189-2195 | Every stored incoming row of the chat ends read, its badge is zero and it is not marked unread |
| ReadState.MarkedAllRead | crates/daemon/src/database.rs:2189-2202 | The boundary at the newest message does that wherever the boundary stood before |
| Store.Database.ApplyReadState | crates/daemon/src/database.rs:2197-2224 | Read takes the newest boundary; unread sets the marker, reporting whether it was new |
| Store.Database.ApplySyncedReadState | crates/daemon/src/database.rs:2226-2277 | Stale events are ignored; others take their own boundary, the newest named, the newest stored or their own time, in that order |
| Reading.SyncedReadReaches | crates/daemon/src/database.rs:2250-2270 | A read event without a boundary of its own reads what it names and every incoming message strictly older than any message it names |
| Reading.SyncedReadThrough | crates/daemon/src/database.rs:2226-2277 | With a boundary and no names it reads exactly what is at or before that or an earlier boundary; with names, what it names and the seconds before |
| Reading.SyncedReadAll | crates/daemon/src/database.rs:2250-2270 | With neither it reads every stored incoming message |
| Reading.SyncedUnread | crates/daemon/src/database.rs:2226-2252 | An unread event sets the marker and its time and moves nothing else, and a stale one moves nothing |
| Store.Database.ApplySelfReadReceipt | crates/daemon/src/database.rs:2596-2624 | An empty receipt does nothing; otherwise the boundary is the newest named message, or the receipt's time |
| Reading.NamedNewest | crates/daemon/src/database.rs:2605-2617 | The boundary chosen is missing if and only if no named message is stored; otherwise it is the time of one of them, and none of them is newer |
| Reading.SelfReadReaches | crates/daemon/src/database.rs:2596-2624 | So the receipt reads what it names, and every incoming message strictly older than any message it names |
| Store.Database.ReconcileUnreadCounts | crates/daemon/src/database.rs:2284-2300 | Every badge equals its stored unread count, and the result counts the chats whose badge was wrong |
| Reading.MiscountedMove | crates/daemon/src/database.rs:2284-2300 | Every badge becomes the number of incoming rows not read, and the chats counted are those whose badge moved |
| Store.Database.ClearChatThrough | crates/daemon/src/database.rs:2659-2687 | A stale clear changes nothing; otherwise rows go, the tail is refreshed and the watermark rises |
| Sweeps.ChatCleared | crates/daemon/src/database.rs:2659-2727 | The rows through the time go, the others stay in order, and votes, reader entries and reactions go with exactly the ids of rows that went; the chat then shows the text and time of a row that is left and that none is newer than, the later one on ties, or nothing, counts what is left unread, and is read and cleared up to that time |
| Store.Database.DeleteChatThrough | crates/daemon/src/database.rs:2626-2657 | The chat row goes unless newer messages remain, and the watermark rises |
| Sweeps.ChatDeleted | crates/daemon/src/database.rs:2626-2657 | The same sweep; with newer rows left the chat stays and shows them likewise, with none it goes, and it counts as deleted unless it had settings and rows are left |
| Sweeps.StaleSweep | crates/daemon/src/database.rs:2626-2687 | A clear or delete older than the last changes nothing |
| Store.Database.DeleteOneMessage | crates/daemon/src/database.rs:2729-2765 | The message goes with its votes, reader rows and reactions, leaves a tombstone, and the badge alone |
| Sweeps.MessageDeleted | crates/daemon/src/database.rs:2729-2765 | The rows under the id go, with their votes, reader entries and every reaction to them, and every other one stays; the chat shows the newest row left, the earlier one on ties, and its badge is as it was |
| Reactions.ReactionsConverge | crates/daemon/src/database.rs:1907-1972 | Two devices that saw the same events, in any order and any number of times, show the same reaction, provided the adds at the winning timestamp are one and the same |
| Reactions.ReactionsConvergeIff | crates/daemon/src/database.rs:1907-1972 | And that proviso is exact: without it some rearrangement of the very same events shows another reaction |
| Reactions.VisibleIsWinner | crates/daemon/src/database.rs:1907-1972 | What shows is the add with the greatest timestamp, last arrival on ties, if strictly above every removal, and nothing if no add is |
| Reactions.KeysAreIndependent | crates/daemon/src/database.rs:1907-1972 | Interleaved events of other keys do not disturb a register |
| Reactions.ReactionFlag | crates/daemon/src/database.rs:1907-1972 | A removal reports whether it moved anything, an add whether what shows is another |
| Store.Database.ApplyReactionEvent | crates/daemon/src/database.rs:1907-1972 | The upserts and deletes implement the register, and the flag is that of the statements |
| Receipts.ReceiptsJoin | crates/daemon/src/database.rs:2428-2501 | Rows and visible reader times depend only on which receipts arrived, not on order, duplication or batching |
| Receipts.OwnRowJoin | crates/daemon/src/database.rs:2443-2462 | An own row ends with the greatest receipt seen and the least positive delivery and read times |
| Receipts.ReaderEntryJoin | crates/daemon/src/database.rs:2463-2497 | The same least times per reader |
| Receipts.ReceiptFlagExact | crates/daemon/src/database.rs:2442-2500 | Over a whole call, some statement changed something if and only if the tables end up different |
| Receipts.OnlyOwnMove | crates/daemon/src/database.rs:2443-2497 | Incoming rows never move, of own ones only level and times do |
| Receipts.OwnIsRecorded | crates/daemon/src/database.rs:2443-2497 | A receipt leaves a reader entry if and only if it names a reader and some own message has its id; without such a message it changes nothing |
| Store.Database.UpdateReceipts | crates/daemon/src/database.rs:2428-2501 | The loop over ids leaves the join and returns true exactly when a row or reader entry differs |
| Tallies.ReconcilePollTallies | crates/daemon/src/database.rs:35-110 | The nested loops over hash maps compute every tally of the card as a function of the vote table, and the flag says whether the card differs |
| Tallies.Count | crates/daemon/src/database.rs:75-109 | The hash maps hold, per option, the number of selections, the voters in order without repeats, and whether one is ours |
| Tallies.TallyTwice | crates/daemon/src/database.rs:66-110 | Reconciling twice changes nothing more |
| Polls.CardMeaning | crates/daemon/src/database.rs:35-64 | On an agreeing card each option's votes equal its number of distinct voters, listed once each, and the total counts the non-empty votes |
| Polls.SingleChoiceSum | crates/daemon/src/database.rs:35-64 | On a single-choice card with distinct options the counts add up to the number of voters |
| VoteRuns.VoteRowIsLatest | crates/daemon/src/database.rs:2094-2115 | In every run of the store, through refreshes, replays, prunings, clears, deletes and reopens, a voter's row is the latest vote the card accepted from them since its votes were last removed, last arrival on ties |
| VoteRuns.VoteRowOverRuns | crates/daemon/src/database.rs:2041-2128 | The row is the fold of those votes, and there is none if there were none |
| VoteRuns.OnlyVotesVote | crates/daemon/src/database.rs:2041-2128 | Every other transaction leaves the votes of a card as they are or removes them all |
| Polls.VoteFlag | crates/daemon/src/database.rs:2041-2128 | A vote is refused exactly for picking too much, and otherwise reports whether the tables moved |
| Polls.NormalizedInOrder | crates/daemon/src/database.rs:2080-2094 | The stored selection is the offered options in the order they were first picked |
| Polls.ReopenRepairs | crates/daemon/src/database.rs:121-155 | After a reopen a card agrees if and only if it has a vote row or agreed before |
| Polls.ReopenIdle | crates/daemon/src/database.rs:121-155 | Reopening a database whose cards agree changes nothing |
| Polls.ReopenTwice | crates/daemon/src/database.rs:121-155 | A second reopen repairs nothing more |
| PollRuns.CardsAlwaysAgree | crates/daemon/src/database.rs:66-155 | In every reachable state every stored card agrees with the vote table, through votes, refreshes, deletes, clears, pruning and reopens |
| PollRuns.SingleChoiceAlwaysSums | crates/daemon/src/database.rs:35-64 | In every reachable state an unchanged single-choice poll's counts add up to its total |
| Store.Database.ApplyPollVote | crates/daemon/src/database.rs:2041-2128 | Stray votes change nothing, overvotes are refused, others move vote row and card, with the flag or error of the source |
| Store.Database.ReconcileAllPollTallies | crates/daemon/src/database.rs:121-155 | The repair loop recounts every card that has a vote row |
| ReadOutbox.NothingIsLost | crates/daemon/src/database.rs:1186-1265 | Over any run a pending receipt stays pending until a batch that holds it is finished, and its chat stays pending |
| ReadOutbox.LateReceiptSurvives | crates/daemon/src/database.rs:1246-1265 | A receipt queued while a batch is on the wire outlives that batch |
| ReadOutbox.NextBatchRetiresChat | crates/daemon/src/database.rs:1217-1265 | With nothing new queued, finishing the next batch removes its chat and its receipts and nothing else |
| ReadOutbox.DrainEmpties | crates/daemon/src/database.rs:1217-1265 | Taking and finishing batches ends with both queues empty |
| ReadOutbox.ReadsQueued | crates/daemon/src/database.rs:1186-1215 | The chat is pending since the earliest time asked for, and every other chat as before |
| ReadOutbox.ReceiptQueued | crates/daemon/src/database.rs:1200-1212 | A receipt goes to the end of the queue unless the chat has it queued |
| ReadOutbox.ReceiptsInOrder | crates/daemon/src/database.rs:1226-1244 | A batch holds its chat's receipts in the order of the queue |
| ReadOutbox.BatchFinished | crates/daemon/src/database.rs:1246-1265 | A pending receipt goes if and only if the batch holds it, by chat, sender and message; the chat goes if and only if none of its receipts is left; times and other chats stand |
| ReadOutbox.RemainingInOrder | crates/daemon/src/database.rs:1246-1265 | What a finished batch leaves stays in order |
| Store.Database.QueueReadReceipts | crates/daemon/src/database.rs:1186-1215 | The chat keeps its earliest time and each receipt is queued once |
| Store.Database.NextReadBatch | crates/daemon/src/database.rs:1217-1244 | The chat first by time and identifier, with all its receipts in order |
| Store.Database.FinishReadBatch | crates/daemon/src/database.rs:1246-1265 | Exactly the batch's receipts go, the chat only if none is left, and the flag says whether it went |
| Store.Database.DrainReadOutbox | crates/daemon/src/database.rs:1217-1265 | The next/finish loop terminates and touches no other table |
| TextOutbox.RunConserves | crates/daemon/src/database.rs:999-1184 | Over any run an entry keeps its payload; if gone, it was completed while sending, discarded while not, or failed with 32 newer failures at an enqueue |
| TextOutbox.OutboxBalances | crates/daemon/src/database.rs:999-1184 | Conservation: what is present and what has left are what was there and what was accepted |
| TextOutbox.EvictedIsOld | crates/daemon/src/database.rs:1057-1063 | A failure is evicted if and only if at least 32 failures are newer |
| TextOutbox.ClaimsInOrder | crates/daemon/src/database.rs:1093-1140 | A claim takes the first queued entry by creation time and id, and only its status moves |
| TextOutbox.RestartRecovers | crates/daemon/src/database.rs:812-815 | A restart loses nothing, leaves nothing in flight and touches nothing else |
| TextOutbox.AllRearmed | crates/daemon/src/database.rs:1160-1168 | After a reconnect every entry is there with its payload and creation time, and is queued; what was in flight or had failed has no error any more |
| TextOutbox.ErrorsStayFailures | crates/daemon/src/database.rs:999-1184 | In every reachable state exactly the failed entries carry an error, so after a reconnect none does |
| TextOutbox.FailureRecorded | crates/daemon/src/database.rs:1142-1149 | An entry in flight becomes failed with that error; any other, and every other, is as it was |
| TextOutbox.FailureRetried | crates/daemon/src/database.rs:1151-1158 | A failed entry becomes queued without an error; any other, and every other, is as it was |
| TextOutbox.EntryLeaves | crates/daemon/src/database.rs:1170-1184 | Completing removes an entry exactly if it is in flight, discarding exactly if it is not, and neither touches the rest |
| TextOutbox.DeliveryQueued | crates/daemon/src/database.rs:999-1066 | A new delivery is queued without an error, only failures may go for it, and those that stay are as they were; a known one changes nothing |
| TextOutbox.EntryClaimed | crates/daemon/src/database.rs:1093-1140 | The claimed entry was queued and is in flight without an error, and the rest is as it was |
| TextOutbox.Outbox.EnqueueTextMessage | crates/daemon/src/database.rs:999-1066 | A taken id with another payload is an error, with the same payload a no-op; otherwise the entry is queued and old failures go |
| TextOutbox.Outbox.ClaimTextMessage | crates/daemon/src/database.rs:1093-1140 | The claimed entry is the next queued one, now sending |
| TextOutbox.Outbox.RetryAllTextMessages | crates/daemon/src/database.rs:1160-1168 | Every entry is queued, and the result counts those that were not |
| Merging.MergeIsUnion | crates/daemon/src/database.rs:2936-3031 | A chat's rows after the alias merge are one per image of a prior key, read if any preimage is, with the greatest receipt, and none has the old sender |
| Merging.MigratedRows | crates/daemon/src/database.rs:2917-3117 | Afterwards the old identifier is no chat and no sender, and the merged chat holds the newest of that union |
| Merging.MigratedRowJoins | crates/daemon/src/database.rs:2936-3031 | Each surviving row's read flag and receipt, over all its preimages |
| Merging.MigratedSettings | crates/daemon/src/database.rs:3072-3097 | Watermark and boundary of the merged chat are the maxima of the two, the ids go with the greater boundary, and with one settings row its boundary and ids stand |
| Merging.MigratedPeople | crates/daemon/src/database.rs:2965-3071 | Row by row, who voted, read and reacted after the merge: the new identifier's own row or else the old one's, and in the merged chat the later vote, the later read time, the reaction already there, and both chats' tombstones |
| Unions.MigratedColumns | crates/daemon/src/database.rs:2936-3031 | Each surviving row's media, download, quote and times are each the first that any of its up to four preimages has, the new identifier's own in the new chat first, and missing only if all lack it; time, text and ownership join the rows of one chat: the greatest time, the first text there is, own if either is; and the new identifier's messages carry its contact's name |
| Unions.MigratedChat | crates/daemon/src/database.rs:2980-3107 | The merged chat shows the preview and time of whichever chat is later, the old one on ties, the greater badge, and the title of the greater rank unless its contact names it |
| Unions.MigratedOneChat | crates/daemon/src/database.rs:2980-3107 | A chat of one identifier keeps its row but for the contact's title |
| Unions.MigratedContact | crates/daemon/src/database.rs:2928-2935 | The merged contact has the name and rank of the greater source, the old one on ties |
| Unions.MigratedMarkers | crates/daemon/src/database.rs:3072-3097 | The merged settings are deleted or marked unread if either was, and take the old read state if there is one |
| Unions.MigratesIff | crates/daemon/src/database.rs:255-270 | The merge happens if and only if the identifiers differ and the old one is that of a chat, contact, settings row, sender, reactor or voter; otherwise nothing changes |
| Merging.PeopleJoin | crates/daemon/src/database.rs:2965-3046 | The statements that move voters and readers, and then the old chat's rows, have that effect for every message, voter and reader |
| Merging.ReactionsJoin | crates/daemon/src/database.rs:2976-3060 | Likewise for reactions, by reactor and by chat |
| Merging.MigrateTwice | crates/daemon/src/database.rs:2917-3117 | A second merge returns false and changes nothing |
| Store.Database.MigrateContactJid | crates/daemon/src/database.rs:2917-3117 | The statements over nine tables leave the merged state, and the flag is true exactly when the old identifier occurred |
| Inbound.CommittedUntilFinished | crates/daemon/src/events.rs:38-123 | Over every run with crashes, a committed key stays in the inbox until a step finishes it after a reduction that accepted it and that nothing interrupted |
| Once.StoredAtMostOnce | crates/daemon/src/database.rs:1367-1465 | In any run of the store, through receptions, replays, clears and deletes, a message whose copies carry one time and which retention spares is stored at most once, and never if it was stored, cleared or deleted before |
| Once.SystemStoresOnce | crates/daemon/src/events.rs:38-123 | Through commits, reductions, crashes and other transactions the system's tables are those of such a run, so a message is stored and counted at most once |
| Once.CountedAtMostOnce | crates/daemon/src/database.rs:1433-1465 | All its copies together raise the badge at most by one over the whole run |
| Once.EventOnce | crates/daemon/src/database.rs:1367-1385 | One transaction: whatever takes the message out of the tables other than retention leaves every later copy suppressed |
| Once.DrainStoresOnce | crates/daemon/src/events.rs:75-111 | So a drain that finds several copies of a message in the inbox stores and counts it at most once |
| Inbound.ReplayIsIdle | crates/daemon/src/database.rs:1433-1465 | Replaying a stored message changes no row, no vote, no reader entry and no badge |
| Inbound.ReductionBadge | crates/daemon/src/database.rs:1419-1465 | Receiving a message raises its chat's badge by one if and only if it is new, counts, is newer than the read boundary and is not named by it; otherwise that badge stands, and no other badge moves |
| Inbound.SystemSound | crates/daemon/src/events.rs:69-123 | Reductions, crashes and other transactions keep every chat sound |
| Inbound.DrainIsRun | crates/daemon/src/events.rs:75-111 | The drain, cut short anywhere, leaves the tables and inbox of a run of the system: names learned, rows reduced, keys finished |
| Inbound.DrainDelivers | crates/daemon/src/events.rs:75-111 | A key a drain removes was that of a listed row whose message an earlier step of the drain accepted, performing its transactions |
| Inbound.DrainSound | crates/daemon/src/events.rs:75-111 | A drain keeps every chat sound |
| Inbound.DrainClears | crates/daemon/src/events.rs:75-111 | A drain in one generation removes exactly the rows it accepts |
| Inbound.OnlyVotesStay | crates/daemon/src/messages.rs:66-433 | Of the listed rows that decode it accepts all but votes, and nothing that is not listed |
| Waiting.VoteWaitsForPoll | crates/daemon/src/messages.rs:147-244 | A fair vote that comes before its poll: the first drain stores the poll and keeps the vote, the second casts the vote and empties the inbox |
| Waiting.VoteIsLeft | crates/daemon/src/messages.rs:156-163 | Without its poll a vote changes nothing but the sender's name and its row stays |
| Waiting.OvervoteIsLeft | crates/daemon/src/messages.rs:205-244 | A vote that picks more than its card allows is not stored and its row stays |
| Waiting.VoteIsDropped | crates/daemon/src/messages.rs:164-204 | A vote that cannot be read, or picks what its card does not offer, is finished and nothing is stored |
| Inbound.ReceivedRuns | crates/daemon/src/messages.rs:109-433 | What each kind of message does to the tables: insert, or media for a message the store has; reaction; vote if the card makes sense of it; nothing |
| Inbound.CommitKeeps | crates/daemon/src/database.rs:931-958 | Committing keeps keys unique, loses none and holds every key of the batch |
| Inbound.PendingIsFront | crates/daemon/src/database.rs:960-987 | What is pending is a front part of the inbox in commit order, as long as asked for, but at least one row and at most ten thousand |
| Inbound.CommitAppends | crates/daemon/src/database.rs:931-958 | The inbox stays in front, and each row appended is the first of its key in the batch and new to the inbox |
| Inbound.PlacedBehind | crates/daemon/src/database.rs:960-987 | A row is listed behind all that were committed no later and before the rest |
| Inbound.CutShort | crates/daemon/src/events.rs:38-111 | A message to show needs a current generation four times, a reaction three times; a look too few, and only the name is learned and the row stays |
| Inbound.ChosenIs | crates/daemon/src/history.rs:446-459 | A vote picks exactly the options it selects among the card's, each once if they are distinct |
| Reducer.Inbox.CommitInboundBatch | crates/daemon/src/database.rs:931-958 | Known keys are ignored and the result counts the rows added |
| Reducer.Inbox.Pending | crates/daemon/src/database.rs:960-987 | The first rows in commit order, up to the clamped limit |
| Reducer.MessageReducer.ReceiveMessage | crates/daemon/src/messages.rs:68-433 | Name, looks at the generation and the branches for messages, reactions and votes leave tables, clock and acceptance as specified |
| Reducer.MessageReducer.ReduceMessage | crates/daemon/src/events.rs:38-67 | The message is received in a current generation only, and its key finished only if it was accepted |
| Reducer.MessageReducer.Drain | crates/daemon/src/events.rs:69-111 | The loop leaves database and inbox as the run of its steps does, wherever the generation moves on |
| Connections.ConnectionIntents.Connect | crates/daemon/src/connections.rs:21-31 | From any last id, wrapping past zero, it ends with the first free id after it, non-zero, and leaves the other intents alone |
| Connections.FreeIdExists | crates/daemon/src/connections.rs:21-31 | With fewer connections than non-zero ids one is free |
| Connections.StepApproaches | crates/daemon/src/connections.rs:23-26 | Each step of the search is nearer, round the ring, to any free id |
| Connections.ConnectionIntents.CurrentState | crates/daemon/src/connections.rs:53-63 | Available if some client is, and exactly the chats some client views |
| Connections.ConnectionIntents.IsFocused | crates/daemon/src/connections.rs:65-70 | True exactly for the chats of the aggregate |
| Presence.SubscriptionsFollowFocus | crates/daemon/src/presence.rs:29-70 | Over every run of changed intents, attaches, detaches, restores and failing calls, while a client is attached a chat is subscribed exactly when it is direct and in the aggregate, unless the last call made for it failed |
| Presence.AnnouncedOnlyIfAvailable | crates/daemon/src/presence.rs:25-52 | Over the same runs the device is announced only while some connection asks for it, unless the last announcement failed |
| Presence.AnnouncedIffAvailable | crates/daemon/src/presence.rs:25-52 | If the last announcement did not fail, a device with a name is announced if and only if some connection asks for it and the sync was over then |
| Presence.AnnouncementHeard | crates/daemon/src/presence.rs:25-52 | An announcement that is not due or fails changes nothing; otherwise the device is announced if and only if that is asked for after the sync and it has a name or was announced |
| Presence.SubscriptionMoves | crates/daemon/src/presence.rs:53-70 | A direct chat that enters or leaves the aggregate is subscribed accordingly if its call succeeds, and every other subscription stays |
| Presence.OwnIntentOnly | crates/daemon/src/connections.rs:21-51 | A connection's chat and availability move only by its own events, and it starts with neither |
| Presence.FreshClient | crates/daemon/src/presence.rs:29-70 | A fresh client opens every direct chat that is viewed, except those whose calls fail |
| Presence.SubscribedIffViewed | crates/daemon/src/presence.rs:29-70 | Without failures, subscribed if and only if direct and viewed by some connection |
| Presence.LeavingKeepsOthers | crates/daemon/src/presence.rs:53-59 | One viewer leaving or turning away keeps a chat another connection still views, whatever fails then |
| Presence.Client.Reconcile | crates/daemon/src/presence.rs:29-70 | Announcement and the loops over the two set differences leave the state specified, failing calls passed over; without a client nothing happens |
| Launcher.RemoveUndoesUpsert | crates/ctl/src/main.rs:245-280 | Removing after upserting is removing; it restores a text without markers character for character |
| Launcher.LastUpsertWins | crates/ctl/src/main.rs:267-280 | Upserting two blocks in turn equals upserting the second, so the same block twice changes nothing |
| Launcher.MenuSurvivesIff | crates/ctl/src/main.rs:267-371 | The menu just written is found again if and only if none of its entries holds a marker |
| Launcher.MenuRoundTrip | crates/ctl/src/main.rs:245-280 | A menu of such entries comes out again character for character, and a second menu takes its place as if it were the first |
| Launcher.MarkedEntryLost | crates/ctl/src/main.rs:282-301 | With the begin marker inside one entry, neither removing nor upserting works any more |
| Launcher.LinesHold | crates/ctl/src/main.rs:322-371 | The rendered lines hold a marker exactly when some entry does |
| Launcher.BlockSurvivesIff | crates/ctl/src/main.rs:282-301 | The same of any framed block: found again if and only if its interior holds no marker |
| Launcher.MarkerPlaces | crates/ctl/src/main.rs:282-301 | Every marker in a text around a block lies within one of its parts; none straddles a seam |
| Launcher.SpanIsFirst | crates/ctl/src/main.rs:282-301 | No begin marker lies before the span and no marker after it; without a span there is none |
| Launcher.MenuMarksSeparated | crates/ctl/src/main.rs:17-18 | The menu's own two markers cannot straddle a seam, overlap or coincide |
| Launcher.RenderIsFramed | crates/ctl/src/main.rs:322-371 | A rendered block is a framed block whose interior ends a line |
| Launcher.RootAfterBlank | crates/ctl/src/main.rs:303-320 | The root brace is looked for past the four blanks, is found where it is first, and anything else but a comment means there is none |
| Launcher.RootAfterComment | crates/ctl/src/main.rs:303-320 | A comment is passed over to the end of its line |
| Launcher.UpsertMenuBlock | crates/ctl/src/main.rs:267-280 | Replace the span, or insert after the root brace, or fail as the source does |
| Launcher.RemoveLauncherMenu | crates/ctl/src/main.rs:245-257 | Remove the span if there is one, or fail as the source does |
| Launcher.RenderMenuBlock | crates/ctl/src/main.rs:322-371 | The loop writes the begin marker, one line an entry, and the end marker |

## Left out

- Calls.CallIsSequentialIff: not stated where an id is divided and the message brings media or finds votes or readers there; whether the replays agree then depends on what the columns hold.
- Commuting.BoundaryCommutes: stated for a message that is not suppressed, shares no id with a stored row and counts as unread only if incoming, and for boundary ids within the cap of 256, because past the cap the oldest ids are dropped.
- Once.StoredAtMostOnce: every copy of the message carries one time; what retention evicts can be stored again, which is the subject of `Replays` and `Batching`.
- Reducer.MessageReducer.ReceiveMessage: identifiers are resolved and bytes decoded beforehand; group titles, poll secrets (a stored poll has its own), download metadata and notifications are left out; a vote names options where the source compares their hashes.
- Launcher.RenderMenuBlock: entries are given as lines; trimming and JSON-escaping titles, hex ids and shell quoting are not modelled.
- PollRuns.CardsAlwaysAgree: message ids have one sender each and cards arrive without votes; total counts are unbounded where the source saturates at 32 bits.
- Presence.SubscriptionsFollowFocus: a change of intent and its reconciliation are one step; two raw identifiers are two chats, also where they parse to the same address; a fresh service connection starts without subscriptions, and its push name stays as it is.
- Alias merge and the account reset are not steps of the runs: the merge joins flags and watermarks without deriving them again and has its own results; nothing is claimed of reaction tombstone rows and pending queues across it.
- Poll secrets, pin, archive and mute settings, phone numbers, group titles, media downloads and media path rewriting: independent registers with easy rules.
- Reading queries (lists, cursors, unread totals, message views) and the schema migrations; `open` is the outbox recovery and the tally repair.
- JSON columns are values; undecodable media and votes, and SQLite failures, do not occur.
- Messages of a replayed conversation carry that conversation's own chat identifier.
- The completeness check of the protocol database before unread counts are reconciled.
- The `deleted` flag is carried as the statements write it, with no invariant of its own.
- Files, processes, notifications, the socket loop, the network and the clock; a generation is a number of checks that still succeed.
