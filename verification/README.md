# drevo: a verified model

drevo is a graph database server. This project models the parts of it where several pieces of
state have to agree, and proves that they do.

- **The event stream** (`EventBus`, `ChangeFeed`, `EventMerge`, `EventStream`,
  `EventFilter`, `StreamProtocol`, `StreamResume`). Committed changes and named application events are two numbered logs, of
  which old entries are dropped. A follower merges them, filters the result and sends events
  whose ids a client can resume from (server-sent events and `Last-Event-ID`, section 9.2 of
  the WHATWG HTML Living Standard). It is modelled twice: with both logs read at once, where
  what is queued is the exact merge and every id resumes exactly; and as a state machine in
  which the reads of a round are apart and commits, publications, trims and evictions happen
  anywhere between, where the two forms of id differ.
- **Transactions of the service** (`TxLedger`, `TxService`, `Autocommit`). Events posted by
  statements wait for their commit, through explicit transactions, two-phase commit and the
  retry loop of statements that commit by themselves. The specification is the bare trace of
  calls and answers.
- **Indexes** (`Replay`, `GraphLog`, `IndexProtocol`, `IndexProgress`, `ValueCache`). Indexes chase the change feed under a
  lock, in small steps, while others commit, trim the feed behind them, declare indexes and
  switch the optional ones on and off.
- **GraphML** (`Text`, `XmlText`, `XmlCharRef`, `XmlReader`, `XmlRoundTrip`, `XmlRejects`, `GraphmlImport`,
  `GraphmlFields`, `GraphmlDocument`, `GraphmlRoundTrip`). The exporter and the hand-written XML reader, up to
  the round trip of whole graphs (sections 2.4, 2.7, 3.1, 4.1 and 4.6 of XML 1.0, Fifth
  Edition).
- **Backups** (`BackupChain`, `Calendar`). Chains of full and incremental backups over any run
  of a server, and the civil date of a day count (section 5.7 and Appendix C of RFC 3339).
- **Declarations, catalog, admission, reindexing** (`Constraints`, `ConstraintRules`,
  `Catalog`, `Gate`, `Reindex`).

Concurrency is a state machine over atomic steps (`StreamProtocol`, `IndexProtocol`, `Gate`),
or a parameter that stands for whatever other threads do at each point (`ValueCache`). Code
that updates fields is a class whose methods are proved against a value, a history or a trace;
loops keep their loops.

`dafny verify dfyconfig.toml` checks everything.

## Where the code does not keep what it promises

- **Events of retried attempts.** The comment at src/native_service.rs:1028 says that only the
  attempt that commits posts its events. `before` triggers run outside the attempt's `collect`,
  so what they post in an attempt that loses a race is published too. `Autocommit` proves that
  the promise holds exactly if the triggers of the attempts that lost a race posted nothing
  (`PublishesCommitOnly`), that triggers which post nothing are always safe (`SilentTriggers`),
  and that any other is published twice by a lost race (`RetriedTriggerLeaks`).
- **Constraints that share a rule.** An `IS NOT NULL` over other than one property installs the
  same engine rule as a node key over the same properties, and dropping either removes the rule
  of both. `Constraints` proves that this is the only collision (`RuleOfInjective`) and that a
  drop leaves the other constraints enforced exactly if none collides (`DropKeeps`). The parser
  does not produce such a constraint; a stored definition can hold one.
- **A dropped database's place in the access list.** Removing a read-only database while the
  access list cannot be written reports the failure and leaves its name in the list: a database
  created under that name is writable until the next restart and read-only after it. `Catalog`
  proves that a created database comes back as it is exactly if the list does not name it
  (`CreateInSync`), and that every successful `set_access` and `remove` repairs the list
  (`RecreatedComesBackReadOnly` is the failing run).
- **A database created while one of its name is removed.** `remove` deletes the directory after
  giving up the lock, so a `create` of that name in between succeeds and loses its files
  (`CreateLosesItsFiles`). `Catalog` proves, over every interleaving, that a restart gives back
  what is in memory exactly if no database was overtaken so (`OverlappingCalls`), and that it is
  enough not to create a name while it is being removed (`NoOverlapNoLoss`).
- **An id without an event number.** In the two-read protocol a round may send a change under a
  bare cursor after an event stamped below it was published and before the bus is read again. A
  client that resumes with that id never gets the event, and is not told
  (`StreamResume.BareIdSkipsAnEvent`). `StreamResume.ResumeInEveryRun` proves when an id resolves
  to the place it was sent from: exactly if it carries an event number, or nothing has been
  dropped and no event is stamped below it.
- **Relationships deleted with their node.** Deleting a node deletes its relationships, and the
  change feed says so by the node's deletion alone, which the full-text index of relationships
  ignores: it keeps them until it is rebuilt (`IndexProtocol.DeletedRelationshipStays`).
  `IndexProtocol.RelationshipsServed` proves that its entries for stored relationships are always
  those of a build from scratch, and that it holds nothing else exactly if no relationship it
  projects went with its node since its last rebuild (`GraphLog.LeftBehind`).

## Model

| member | source | states |
|---|---|---|
| `EventBus.Bus.Publish` | src/event_bus.rs:114-136 | the history of everything published grows by exactly the batch, numbered on and stamped with the one cursor; exactly the events beyond the bound are dropped, and an empty batch drops nothing |
| `EventBus.Bus.AfterNum` | src/event_bus.rs:146-165 | the answer is exactly the suffix of the unbounded history after the number, or lagged, which it is precisely when one of those events was dropped or the number was never issued |
| `EventBus.Bus.SeqBeforeCursor` | src/event_bus.rs:172-186 | with non-decreasing stamps, the number of events stamped below the cursor; `None` exactly when a dropped event is stamped at or after it; an answer `AfterNum` never calls lagged |
| `EventBus.CountBelowSplits` | src/event_bus.rs:172-186 | counting the events stamped below a cursor is finding the cut in an ordered history |
| `EventBus.BoundaryIsCount` | src/event_bus.rs:172-186 | the two events around the cut decide the count and the answer for any number of dropped events |
| `ChangeFeed.Feed.ChangesSince` | drevo-core/src/native.rs:3097-3116 | exactly the changes of the log after the cursor, with the head to resume from; lagged exactly when one of them was trimmed |
| `ChangeFeed.Feed.TrimBefore` | drevo-core/src/native.rs:3127-3139 | the floor moves forward only, never past the head, and nothing after it is lost |
| `EventMerge.MergeIsPath` | src/events.rs:270-315 | the merge takes every change and every event after the position, in order, an event stamped k after change k and before change k+1 |
| `EventMerge.MergeResumes` | src/events.rs:270-315 | the merge from the position of any item is the rest of the merge |
| `EventMerge.MergeContinues` | src/events.rs:270-315 | commits and publications later only append to the merge |
| `EventMerge.RoundsAreOneMerge` | src/events.rs:270-315 | any number of rounds over growing logs queue, together, one merge of the final logs |
| `EventStream.PositionRoundTrip` | src/events.rs:147-176 | every id the server sends is read back as the position it was made from; an id without a number as a bare cursor |
| `EventStream.PositionSpelt` | src/events.rs:147-176 | how an id is spelt on the wire, and that an absent or empty one asks for the latest change |
| `EventStream.OtherTextRefused` | src/events.rs:167-176 | text with anything but digits, a sign and a colon names no place |
| `EventStream.Follower.constructor` | src/events.rs:390-410 | where a subscriber starts: the latest position, the position it names, or the one its bare cursor resolves to; a reload where that is gone |
| `EventStream.Follower.SendNamed` | src/events.rs:294-303 | queues exactly the events the merge puts before the next change |
| `EventStream.Follower.CatchUp` | src/events.rs:270-315 | with both logs read at once, what is queued is exactly the filtered merge; one `lagged` event instead, precisely when something after the position is gone or the position was never issued |
| `EventFilter.SentExactly` | src/events.rs:96-228 | an event is among what is queued exactly if it is due: the change or named event of that content lies after the position, was asked for by the labels and names given, may be seen, and carries the id of its place; deletions pass whatever the labels; nothing else is queued |
| `EventFilter.NeverSentDenied` | src/events.rs:114-142 | a subscriber is never sent a node or a relationship its privileges deny |
| `EventFilter.ChangeAt` | src/events.rs:294-311 | a change is placed after the events stamped below it and before the others |
| `EventFilter.NamedAt` | src/events.rs:294-314 | in an ordered history an event is placed right after the change it is stamped with |
| `EventStream.ResumeExact` | src/events.rs:147-176 | the id of any event sent resolves, however much happens meanwhile, to its position, and the merge from there is everything that follows; a bare id fails to resolve exactly once an event has been dropped |
| `EventStream.ResumeExactFiltered` | src/events.rs:96-143 | the same for what the filter lets through: what was shown up to the event whose id is sent, and what is queued from where that id resolves to, are the whole stream |
| `EventStream.BareIdResolves` | src/events.rs:399-408 | an id sent before any event resolves to number 0 while nothing is dropped, and to a reload after |
| `EventStream.ResumeAfterLagged` | src/events.rs:243-266 | a client that reconnects with the id of a `lagged` event continues where the server left it |
| `StreamProtocol.RunKeepsInv` | src/events.rs:270-315 | in every interleaving of commits, publications, trims and evictions with the follower's two reads, what was consumed is a path through both logs |
| `StreamProtocol.ChangesExactlyOnce` | src/events.rs:270-315 | every committed change a follower has passed was consumed exactly once, with its content |
| `StreamProtocol.NamedExactlyOnce` | src/events.rs:270-315 | every published event a follower has passed was consumed exactly once, with its content |
| `StreamProtocol.ConsumedInCausalOrder` | src/events.rs:270-315 | changes are consumed in cursor order, events in number order, nothing else is, and an event only after the change it is stamped with |
| `StreamProtocol.RoundDrainsWhatItRead` | src/events.rs:273-314 | a round that does not lag drains every event its bus read returned and every change up to the head it read |
| `StreamProtocol.ReadsOnlyKept` | src/events.rs:273-290 | a round that is not told to reload reads only events and changes that were still kept when it read them |
| `StreamResume.ResumeInEveryRun` | src/events.rs:390-410 | in every run of the two-read protocol, the id of a consumed item resolves, at any later time, to its place exactly if it carries an event number, or nothing was dropped and no event is stamped below it; otherwise it is a reload or passes over the events stamped below |
| `StreamResume.ResumedContinues` | src/events.rs:270-315 | what a follower started at the place of a consumed item consumes continues the path: each change and each event once over both |
| `StreamResume.BareIdSkipsAnEvent` | src/events.rs:271-314 | the run in which a bare id passes over an event that was never sent |
| `StreamResume.BareCursor` | src/event_bus.rs:172-186 | a bare cursor is looked up as number 0 exactly if nothing was dropped and no event is stamped below it |
| `TxLedger.RunIsCoherent` | src/native_service.rs:1812-1949 | in every run, a gid is held by the one transaction prepared under it, at most one gid is held, heuristic outcomes are of gids not held |
| `TxLedger.RunCommitsOnce` | src/native_service.rs:1812-1909 | in every run, exactly the transactions whose fate is to be committed are among the commits, each once |
| `TxLedger.PublishedExactlyOnce` | src/native_service.rs:1590-1624 | over every run, what is published is the concatenation, in commit order, of everything each committed transaction posted in statements that succeeded |
| `TxLedger.FiredExactlyOnce` | src/native_service.rs:1812-1909 | over every run, the `after` triggers run with exactly what the `before` triggers of the committed transactions passed, once each, in commit order, in phase two as in a commit |
| `TxLedger.FinalInEveryRun` | src/native_service.rs:1812-1949 | a committed or aborted transaction stays so, and posts nothing more |
| `TxLedger.AbortedPublishesNothing` | src/native_service.rs:1843-1847 | a transaction rolled back, refused, vetoed, or rolled back after its prepare has published nothing and never will |
| `TxLedger.TerminatedDoesNothing` | src/native_service.rs:1812-1821 | a terminated transaction posts nothing more, and a commit of it aborts it |
| `TxLedger.RefusedAborts` | src/native_service.rs:1822-1840 | a vetoed or refused commit or prepare aborts |
| `TxLedger.HeuristicIsTold` | drevo-core/src/native.rs:3669-3692 | after a heuristic rollback a commit of the gid is told so, until it is prepared again |
| `TxLedger.PhaseTwoAfterFailures` | src/native_service.rs:1895-1909 | phase two after any number of failed attempts publishes exactly what the transaction posted, and frees its gid |
| `TxService.RepliesAreAnswers` | src/native_service.rs:1812-1949 | the fields give every call the answer the trace of all calls asks for |
| `TxService.TxStep` | src/native_service.rs:1590-1624 | every call keeps: a transaction is registered, listed and has events waiting only while it is open, and those are all it posted |
| `TxService.GidStep` | src/native_service.rs:1795-1801 | every call keeps: events and triggers wait only under a held gid, and are those of the transaction prepared, so a reused gid inherits nothing |
| `TxService.FieldsStep` | src/native_service.rs:1504-1624 | every call keeps all of it, and publishes and fires exactly what the trace says |
| `TxService.Engine.TxPrepare` | drevo-core/src/native.rs:3604-3656 | the slot is closed whatever the outcome; refusals in the engine's order; success raises the gid and forgets a heuristic outcome |
| `TxService.Engine.TxCommit` | drevo-core/src/native.rs:3563-3571 | the slot is closed whatever the outcome |
| `TxService.Engine.CommitPrepared` | drevo-core/src/native.rs:3669-3692 | a commit record that cannot be written leaves the transaction prepared; a heuristic rollback is told apart from an unknown gid |
| `TxService.Engine.RollbackPreparedAs` | drevo-core/src/native.rs:3719-3746 | rolling back what was rolled back heuristically agrees; a second heuristic rollback does not |
| `TxService.Service.BeginTx` | src/native_service.rs:1430-1452 | a fresh transaction, listed and open |
| `TxService.Service.ExecuteInOpenTx` | src/native_service.rs:1504-1615 | a statement that succeeds adds its events to those waiting; one over the write limit rolls back; a closed or terminated transaction runs nothing |
| `TxService.Service.CommitTx` | src/native_service.rs:1812-1840 | a terminated or vetoed transaction is rolled back; a commit publishes the waiting events and runs the `after` triggers; a refusal drops them |
| `TxService.Service.RollbackTx` | src/native_service.rs:1843-1847 | listing, events and registration are forgotten |
| `TxService.Service.PrepareTx` | src/native_service.rs:1857-1886 | closes the transaction either way; success moves its events and trigger parameters under the gid |
| `TxService.Service.CommitPrepared` | src/native_service.rs:1895-1909 | success publishes what waits under the gid and forgets it; failure changes nothing |
| `TxService.Service.RollbackPrepared` | src/native_service.rs:1917-1949 | success forgets what waits under the gid, for the coordinator's and the heuristic rollback |
| `Autocommit.Collector.Keep` | src/event_bus.rs:67-75 | an event goes to the innermost `collect`; without one nothing is kept |
| `Autocommit.Collector.Collect` | src/event_bus.rs:47-63 | for work of any nesting, with panics caught or not: what is returned is what the work posted itself, and the enclosing buffer is as it was |
| `Autocommit.Collector.Run` | src/event_bus.rs:47-75 | running work adds to the buffer exactly what it posts itself up to a panic, nothing of nested `collect` calls |
| `Autocommit.Service.ExecuteAsTransaction` | src/native_service.rs:1006-1103 | at most eight attempts, decided by the first that does not lose a race; what is posted; no transaction stays open on any exit but a panic, which leaves its own registered |
| `Autocommit.Service.ExecuteAutocommit` | src/native_service.rs:930-977 | for statements that write or only read: success publishes what was posted; every failing exit publishes nothing; a refused change of schema runs nothing; an enclosing `collect` is untouched |
| `Autocommit.RowsOfTheCommit` | src/native_service.rs:1073-1103 | the statement succeeds exactly if the deciding attempt commits, with that attempt's rows, and no earlier attempt committed |
| `Autocommit.EightAttempts` | src/native_service.rs:1012-1103 | a statement that loses seven races and then commits succeeds; one that loses eight fails with a conflict |
| `Autocommit.PublishesCommitOnly` | src/native_service.rs:1028-1080 | what is published comes from the committing attempt alone exactly if the `before` triggers of the attempts that lost a race posted nothing |
| `Autocommit.SilentTriggers` | src/native_service.rs:1028-1080 | with `before` triggers that post nothing, only the committing attempt's events are published, however the races go |
| `Autocommit.RetriedTriggerLeaks` | src/native_service.rs:1028-1080 | with triggers that post anything, one lost race publishes it twice |
| `Replay.ReplayRebuilds` | drevo-core/src/native_label_index.rs:112-140 | replaying the feed from a cursor on a snapshot taken at or after it gives the index of the whole log, however many of the changes the snapshot already held |
| `GraphLog.NodesAreStored` | drevo-core/src/native.rs:875-911 | the stored nodes are the fold of the changes of nodes alone |
| `GraphLog.NoDanglingEdges` | drevo-core/src/native.rs:894-911 | with relationships written only between stored nodes, no deletion leaves one without a node at each end |
| `GraphLog.OthersStay` | drevo-core/src/native.rs:894-911 | a node's deletion removes no relationship that does not end at it |
| `GraphLog.KeptOrCascaded` | drevo-core/src/native.rs:894-911 | a relationship not changed by its id is kept as it was, or went in a cascade |
| `GraphLog.RelEntryAt` | drevo-core/src/native_fts.rs:354-382 | what the index of relationships holds for each id, after any log |
| `GraphLog.RelEntriesExact` | drevo-core/src/native_fts.rs:354-382 | restricted to stored relationships its entries are those of a build from scratch; they are the build exactly if no relationship was left behind by a cascade |
| `IndexProtocol.AppliedOk` | drevo-core/src/native_path_index.rs:291-318 | syncing an index of nodes that is exact for some part of the log makes it exact for all of it; the index of relationships follows the changes of relationships |
| `IndexProtocol.SyncKeeps` | src/native_service.rs:142-155 | one step of a sync, rebuilt after lag or not, brings one index to the head read before and touches no other |
| `IndexProtocol.NextKeeps` | src/native_service.rs:1226-1242 | every step of every thread keeps the invariant of indexes, feed, versions and lock phases |
| `IndexProtocol.NeverClaimsMore` | src/native_service.rs:1316-1325 | in every reachable state the floor is at most the synced head and that at most the log's; while the write lock is free every kept index has consumed the changes up to it, so none lags |
| `IndexProtocol.ServedFresh` | src/native_service.rs:1198-1223 | in every reachable state, a statement served under the read lock sees in every kept index of nodes exactly a build from scratch at that head, for definitions that include every declaration completed, and the registry as it is when none is under way |
| `IndexProtocol.RelationshipsServed` | drevo-core/src/native_fts.rs:354-382 | in every reachable state, the index of relationships served under the read lock holds the stored relationships as a build from scratch does, and nothing else exactly if none it projects went with its node since its last rebuild |
| `IndexProtocol.DeletedRelationshipStays` | drevo-core/src/native_fts.rs:363-382 | the run in which it still holds a relationship deleted with its node |
| `IndexProtocol.OnlyForward` | src/native_service.rs:142-155 | the synced head, the floor and the version of the definitions never move back |
| `IndexProtocol.TrimDrops` | src/native_service.rs:1316-1325 | a trim drops exactly what is consumed and not kept for events |
| `IndexProgress.ServedUnderWriteLock` | src/native_service.rs:1220-1242 | when the thread that took the write lock has caught up, whatever the others did meanwhile: every kept index of nodes is a build over the log up to a point no earlier than when the lock was taken, for definitions that include every declaration completed by then |
| `IndexProgress.CatchesUp` | src/native_service.rs:1226-1242 | from every reachable state with the lock free, a thread that takes it and meets nobody is done in at most 37 steps, with every index fresh: new declarations, a changed switch, lag and a moved head included |
| `IndexProgress.AloneStep` | src/native_service.rs:1226-1242 | every step of a thread alone gets nearer to the end and keeps what was brought about |
| `IndexProtocol.SwitchKeeps` | src/native_service.rs:98-113 | switching the optional indexes empties them, and those kept again are refilled before the lock is freed |
| `ValueCache.Cache.ValueFor` | src/native_value_cache.rs:75-78 | a hit is the projection of the live record however stale the cache is; it is a hit exactly if the entry pins that record |
| `ValueCache.Cache.IndexId` | src/native_value_cache.rs:134-151 | the entry is of the record stored now, or gone; other entries stay |
| `ValueCache.Cache.RebuildFrom` | src/native_value_cache.rs:118-132 | the entries are the projections of all stored records |
| `ValueCache.Cache.Sync` | src/native_value_cache.rs:83-116 | while others commit and trim at every point, only what they changed meanwhile may be out of date afterwards; on a quiet graph the entries equal a full rebuild, incremental or after lag |
| `ValueCache.StaysValid` | src/native_value_cache.rs:70-78 | between syncs entries stay exact for the records they pin, whatever others do |
| `ValueCache.CurrentIsRebuilt` | src/native_value_cache.rs:83-116 | with no change unseen the entries are those of a full rebuild |
| `XmlText.PushEscaped` | src/dump.rs:527-544 | the loop writes the escaped form |
| `XmlText.XmlUnescape` | src/dump.rs:772-816 | the loop decodes references, or fails, as the recursive definition does on any input |
| `XmlCharRef.DecimalReference` | src/dump.rs:798-805 | `&#n;` is the character of every scalar value, an invalid code point for every other 32-bit number, a bad reference for a larger one |
| `XmlCharRef.HexReference` | src/dump.rs:791-797 | the same for `&#x` and `&#X` with hexadecimal digits of either case |
| `XmlCharRef.NotADecimal` | src/dump.rs:798-801 | a decimal reference that is no number is a bad reference |
| `XmlCharRef.NotAHexadecimal` | src/dump.rs:791-793 | a hexadecimal reference that is no number is a bad reference |
| `XmlCharRef.UnknownReference` | src/dump.rs:806-810 | any other name is unknown |
| `XmlCharRef.UnescapeAppend` | src/dump.rs:772-816 | text whose references are complete is decoded on its own, whatever follows |
| `XmlText.EscapeRoundTrip` | src/dump.rs:527-544 | for every string, unescaping its escaped form gives the string with forbidden control characters replaced |
| `XmlText.EscapeSanitized` | src/dump.rs:527-544 | a string and its cleaned form are escaped alike |
| `XmlText.EscapeIsInert` | src/dump.rs:527-544 | escaped text holds no markup and no quote |
| `XmlReader.FindTagEnd` | src/dump.rs:695-729 | the first `>` outside quotes, and whether the last thing before it is a slash, on any input |
| `XmlReader.ReadToken` | src/dump.rs:618-680 | whatever markup is read, the position strictly advances and stays in bounds |
| `XmlReader.Step` | src/dump.rs:608-681 | a round of the reader advances or ends |
| `XmlReader.ParseDocument` | src/dump.rs:603-689 | the loop over positions and a stack reads, on every input, what the recursive reader does, every slice in bounds |
| `XmlRoundTrip.ParseTagPrinted` | src/dump.rs:733-766 | a printed tag, whatever blanks and quotes it uses, is read as its name and its attributes |
| `XmlRoundTrip.TagEndPrinted` | src/dump.rs:695-729 | the end of a printed tag is found past every quoted `>` |
| `XmlRoundTrip.ReadAllPrefix` | src/dump.rs:608-617 | text with complete references is added to the open element on its own, whatever follows |
| `XmlRoundTrip.ReadContent` | src/dump.rs:603-689 | reading printed content in front of other markup adds exactly what it means to the open element |
| `XmlRoundTrip.ParsePrinted` | src/dump.rs:603-689 | for every forest of any depth, with text, text with any references, paired and self-closing tags, comments, CDATA, instructions and declarations: reading the printed form gives the forest |
| `XmlRoundTrip.MismatchedRejected` | src/dump.rs:646-655 | an element closed by another name is refused, whatever it holds |
| `XmlRoundTrip.UnclosedRejected` | src/dump.rs:682-687 | an element that is not closed is refused |
| `XmlRoundTrip.UnexpectedCloseRejected` | src/dump.rs:646-649 | a close tag with nothing open is refused |
| `XmlRejects.UnterminatedCommentRejected` | src/dump.rs:619-623 | after any well-formed content, a comment that is never closed refuses the document |
| `XmlRejects.UnterminatedCDataRejected` | src/dump.rs:624-627 | likewise a CDATA section that is never closed |
| `XmlRejects.UnterminatedInstructionRejected` | src/dump.rs:632-635 | likewise a processing instruction that is never closed |
| `XmlRejects.UnterminatedCloseTagRejected` | src/dump.rs:642-645 | likewise a close tag without its bracket |
| `XmlRejects.NoTagEnd` | src/dump.rs:705-729 | a tag whose bracket is missing, or whose quote is never closed, has no end |
| `XmlRejects.AttributeNeedsEquals` | src/dump.rs:743-745 | attributes without an equals sign are refused, naming the tag |
| `XmlRejects.AttributeNeedsValue` | src/dump.rs:746-759 | a missing, unquoted or unterminated attribute value is refused, naming the attribute, for each of the three cases |
| `XmlRejects.TagNeedsName` | src/dump.rs:734-739 | a blank tag is refused |
| `XmlRejects.PredefinedEntities` | src/dump.rs:785-790 | the five named entities stand for their five characters |
| `GraphmlImport.AllocatedIds` | src/dump.rs:227-244 | preserved ids are kept; allocated ids lie after the base and differ for different raw ids |
| `GraphmlImport.ImportedIds` | src/dump.rs:227-248 | for any document, an allocated node id lies above every id in the store and every preserved one, and differs from the other allocated ones |
| `GraphmlImport.ImportedNodes` | src/dump.rs:246-282 | one node per raw node, under its id, every field from the last value the document gives for it, even one that cannot be read; what is missing is made up |
| `GraphmlFields.ImportedNodeProperties` | src/dump.rs:246-282 | the properties of an imported node are, key by key, what its data give last: attributes of other programs, JSON objects, and objects that do not parse; nothing is lost and nothing added |
| `GraphmlFields.ForeignAttributeKept` | src/dump.rs:866-870 | an attribute without a place of its own, not overridden later, is kept as the JSON it spells or as a string |
| `GraphmlFields.EveryDatumCollected` | src/dump.rs:589-598 | every `<data>` with a key is collected, in order, under its declared name or its key |
| `GraphmlFields.EveryRecordCollected` | src/dump.rs:195-225 | every `<node>` and `<edge>` is collected, in order, with its ids and data |
| `GraphmlFields.LastDeclarationCounts` | src/dump.rs:180-185 | the last declaration of a key id gives its name |
| `GraphmlFields.CollectedIffComplete` | src/dump.rs:198-225 | a graph is collected exactly if every node has an id and every edge both ends |
| `GraphmlFields.ImportedIffDeclared` | src/dump.rs:292-304 | an import succeeds exactly if every edge joins declared nodes |
| `GraphmlFields.PreservedIds` | src/dump.rs:827-833 | an id is preserved exactly if it is the prefix and a 64-bit number in digits |
| `GraphmlImport.ImportedEdges` | src/dump.rs:284-337 | every edge joins two imported nodes; its id is the preserved one or lies above every id in the store and every preserved one, in document order |
| `GraphmlFields.ImportedEdgeFields` | src/dump.rs:312-336 | an imported edge has kind, weight, uuid and time from the last value given for each, and as its properties exactly what its data give |
| `GraphmlImport.AllocateIds` | src/dump.rs:233-244 | the loop allocates as the definition does |
| `GraphmlImport.BuildEdges` | src/dump.rs:290-337 | the loop builds the edges, or fails at the first that names an undeclared node |
| `GraphmlImport.ImportGraphml` | src/dump.rs:165-340 | the whole import, on any text, is the specified records or the specified error |
| `GraphmlDocument.RenderGraphml` | src/dump.rs:359-402 | the loops write the specified document |
| `GraphmlDocument.RenderIsDocument` | src/dump.rs:359-402 | the text written is the printed form of a tree |
| `GraphmlRoundTrip.ParsedBack` | src/dump.rs:359-402 | the exported document is read as that tree |
| `GraphmlRoundTrip.GraphRoundTrip` | src/dump.rs:165-340 | importing an exported graph succeeds exactly if every edge joins exported nodes, and then gives the same nodes and edges up to replaced control characters |
| `GraphmlRoundTrip.ExportIsStable` | src/dump.rs:359-402 | exporting what was imported gives the identical document |
| `Text.DecRoundTrip` | src/dump.rs:493-497 | a decimal id is read back |
| `Text.DecIntRoundTrip` | src/dump.rs:258-268 | a decimal timestamp is read back |
| `Text.DecTooLarge` | src/dump.rs:827-833 | a decimal number of 64 bits or more is not an id |
| `Text.DecIntTooLarge` | src/dump.rs:258-268 | a decimal number outside 64 signed bits is not a timestamp |
| `BackupChain.BackupTo` | drevo-core/src/backup.rs:296-389 | the manifest records the log's length and hash, the file is what follows where the backup starts, the sidecars are whole, and every file matches its entry |
| `BackupChain.TailContinues` | drevo-core/src/backup.rs:312-342 | where the hash tells the log's start from the log the previous backup saw, an incremental backup's log is that log followed by the file |
| `BackupChain.KindInEveryRun` | drevo-core/src/backup.rs:309-341 | over every run, a directory is incremental exactly if the log only grew since the backup before, and its file is then exactly what was written since, else the whole log |
| `BackupChain.OnlyWritten` | src/backup.rs:200-216 | a database only written between backups is restored from one full backup and one incremental for each later one |
| `BackupChain.Restore` | drevo-core/src/backup.rs:444-544 | the chain, every file, the target and the assembled log are checked, in that order; success is the assembled log with the last backup's sidecars |
| `BackupChain.RestoresNothingElse` | drevo-core/src/backup.rs:519-528 | whatever it is given, restore never writes a log the hash tells from the one the last backup recorded, nor sidecars that do not match its manifest |
| `BackupChain.BrokenChainRefused` | drevo-core/src/backup.rs:454-473 | a chain that does not start in full or in which a backup does not continue the one before is refused |
| `BackupChain.DamageRefused` | drevo-core/src/backup.rs:410-433 | a chain with a changed file is refused |
| `BackupChain.SelectDirs` | src/backup.rs:301-310 | the selection loop is the specified selection |
| `BackupChain.SelectedIsRun` | src/backup.rs:200-216 | when each backup is taken since the one before, what is selected is a contiguous run that starts at the latest full backup and goes on with incrementals only |
| `BackupChain.RunAssembles` | drevo-core/src/backup.rs:498-515 | the pieces of that run put together are the log the last backup saw |
| `BackupChain.RestoresLatest` | src/backup.rs:300-321 | for every run of writes, compactions, creations, drops and backups whose logs the hash tells apart, restoring gives each database, log and sidecars, as the last backup saw it |
| `BackupChain.RestoreServer` | src/backup.rs:280-331 | all databases are restored, each from what is selected for it, or none is |
| `Calendar.EraSplits` | src/backup.rs:353-357 | for every day of an era the arithmetic finds the year it falls in and its day of that year |
| `Calendar.CivilEpoch` | src/backup.rs:347-361 | day 0 is 1970-01-01 |
| `Calendar.CivilIsDate` | src/backup.rs:352-361 | every integer day count is a date of the Gregorian calendar |
| `Calendar.CivilTomorrow` | src/backup.rs:352-361 | the day after is the calendar's next date, for every integer |
| `Calendar.DaysOrdered` | src/backup.rs:352-361 | dates are ordered as day counts are, and different days are different dates |
| `Calendar.NamesSortInTimeOrder` | src/backup.rs:347-367 | in the years 0 to 9999 names sort exactly as times do, to the second |
| `Calendar.NameReadsBack` | src/backup.rs:347-367 | in the years 0 to 9999 a name spells, digit by digit, the civil date and the time of day it was made from |
| `Gate.CountsAreExact` | src/limits.rs:83-106 | in every interleaving, with spurious failures and changed maxima, the active count is the number of live passes, and finished attempts are admissions plus counted refusals |
| `Gate.NeverAbove` | src/limits.rs:83-106 | while every maximum so far was a real one of at most some bound, no more than that are inside |
| `Gate.FixedMaximum` | src/limits.rs:83-106 | a maximum that is never changed is never exceeded |
| `Gate.NoWrap` | src/limits.rs:127-131 | dropping a pass never takes the count below zero |
| `Gate.AloneDecides` | src/limits.rs:83-106 | an attempt that meets no other is admitted exactly if there is no maximum or a slot is free |
| `Gate.NewMaximumHolds` | src/limits.rs:62-64 | a new maximum set while no attempt is under way lets nobody in beyond it, and those inside stay |
| `Gate.NewMaximumDecides` | src/limits.rs:62-64 | a lone attempt goes by the maximum set last |
| `Constraints.RuleOfInjective` | src/constraint_registry.rs:92-121 | two definitions install one rule exactly if they are the same or collide |
| `ConstraintRules.RuleEnforces` | src/constraint_registry.rs:92-115 | for every graph, the rule a definition installs allows exactly what the definition means, except that `IS NOT NULL` over other than one property is enforced as a node key |
| `ConstraintRules.SoundSchemaEnforces` | drevo-core/src/native.rs:998-1022 | the engine allows a graph exactly if it keeps every registered constraint |
| `Constraints.DropKeeps` | src/native_service.rs:2572-2593 | dropping a constraint leaves the others enforced exactly if none collides with it |
| `Constraints.DropDisablesNodeKey` | src/constraint_registry.rs:109-114 | a drop that disables another constraint |
| `Constraints.RulesAreImage` | drevo-core/src/native.rs:3854-3885 | with constraints as the parser makes them, the engine's rules are exactly the image of the registered ones, one each |
| `Constraints.Schema.PathIndexCreate` | src/native_service.rs:2417-2456 | names stay distinct over all registries; a taken name changes nothing |
| `Constraints.Schema.VectorIndexCreate` | src/native_service.rs:2314-2358 | the same; a name taken by another kind is refused even with `IF NOT EXISTS` |
| `Constraints.Schema.IndexDrop` | src/native_service.rs:2475-2501 | the index of that name is gone and no other declaration is touched |
| `Constraints.Schema.ConstraintCreate` | src/native_service.rs:2518-2563 | names stay distinct, no rule is declared twice, and everything enforced stays so |
| `Constraints.Schema.ConstraintDrop` | src/native_service.rs:2572-2593 | where all were enforced, all others still are exactly if none collides with the dropped one |
| `Catalog.Registry.constructor` | src/database_registry.rs:243-297 | a restart gives the default and every legal directory, with the access the list says |
| `Catalog.LegalNameIsPlain` | src/database_registry.rs:135-149 | a legal name is one plain component of a path |
| `Catalog.WordsAreLegal` | src/database_registry.rs:135-149 | every word of up to 63 letters, digits, `_` and `-` not starting with `-` is legal |
| `Catalog.Registry.SetAccess` | src/database_registry.rs:368-385 | a failure changes nothing; success is what a restart gives back |
| `Catalog.Registry.PersistAccess` | src/database_registry.rs:318-345 | the list becomes the read-only databases, or stays as it is |
| `Catalog.Registry.Create` | src/database_registry.rs:593-616 | a restart gives the new database back as it is exactly if the list does not name it |
| `Catalog.Registry.Remove` | src/database_registry.rs:663-692 | after success a restart gives back what is in memory, and the list names only databases there are |
| `Catalog.OverlappingCalls` | src/database_registry.rs:663-692 | for every interleaving in which removals delete their directories after the lock, once none is under way: a restart gives back what is in memory exactly if no database was overtaken by the removal of the one that had its name |
| `Catalog.NoOverlapNoLoss` | src/database_registry.rs:593-616 | a name never created while it is being removed is never overtaken |
| `Catalog.CreateLosesItsFiles` | src/database_registry.rs:682-690 | the run in which one is |
| `Catalog.CreateInSync` | src/database_registry.rs:593-616 | the exact condition under which a created database comes back writable |
| `Catalog.RecreatedComesBackReadOnly` | src/database_registry.rs:672-691 | the run in which it does not |
| `Reindex.NodeText` | src/native_service.rs:189-203 | exactly the non-empty string property, else the title unless it is a placeholder, else the body; a property of another type hides them |
| `Reindex.MatchesByLabel` | src/native_service.rs:3076-3084 | a node is scanned exactly if the label is its kind or one of its secondary labels |
| `Reindex.PendingCount` | src/native_service.rs:2782-2807 | the loop counts the nodes with text and no embedding |
| `Reindex.PassCounts` | src/native_service.rs:3063-3125 | a pass takes at most the batch off the backlog, and the whole batch, or all there is, with an embedder that never fails |
| `Reindex.PassOnlyEmbeds` | src/native_service.rs:3063-3125 | a pass changes nodes only by adding to pending ones the embedder's vector for their text |
| `Reindex.Service.SemanticReindex` | src/native_service.rs:3063-3125 | scanned is embedded, skipped and remaining together; at most the batch is embedded; remaining is the pending count after the pass; an update the engine refuses ends the pass with the embeddings made so far |
| `Reindex.Service.Backfill` | src/native_service.rs:3063-3125 | repeated passes reach zero in exactly the pending count over the batch size, rounded up |

## Left out

- The engine behind its contract: log encoding, snapshots, conflict detection, write sets, the entries of each kind of index. A commit is one step that changes the stored records and the change feed together; an index is a projection of each record.
- Cypher, triggers, search and routing: a statement is a result and the events it posts, a trigger is an outcome and what it posts.
- The HTTP, Bolt, gRPC and Flight layers, authentication and encryption.
- Text forms of UUIDs, JSON and weights in GraphML: a codec that is assumed to read back what it prints and to print no forbidden control character. A weight that is not a number is outside this, since it is not equal to itself.
- Id and event counters are unbounded; positions in XML text count characters, not bytes.
- Raw ids that spell one number differently (`n1`, `n01`) preserve the same id, so distinctness is stated for allocated ids.
- EventStream.Follower.CatchUp: reads both logs at one instant, as do `EventStream.ResumeExact`, `EventStream.ResumeExactFiltered` and `EventStream.BareIdResolves`; `StreamProtocol` and `StreamResume` take the reads one at a time.
- Catalog.Registry.Remove: is one call; `Catalog.OverlappingCalls` has its two halves apart, with file operations that succeed.
- Named events and prepared events do not survive a restart; runs of `TxLedger` are between restarts.
- Databases made with `create_in_memory` on a durable catalog, and the contents of a directory left behind by a failed removal.
- The gate's `should_warn`, which only decides about a log line.
- Reindex.Service.SemanticReindex: assumes that nobody else writes the graph during a pass.
- Reindexing of relationships, which mirrors that of nodes.
- Compaction thresholds: `maybe_compact` appears as a trim that may happen at any time, and as a rewritten log in `BackupChain`.
- The names generated for unnamed indexes and constraints.
