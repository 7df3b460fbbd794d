# A verified model of Soledad's document synchronisation

Soledad keeps a user's documents on several devices and on one server. Every device has an SQL
database, the server a CouchDB one, and devices synchronise with the server only, using the U1DB
protocol: revisions are vector clocks, every database keeps a transaction log with increasing
generations, and each side remembers the last generation of the other that it has taken in. A
version that is neither newer nor older than the current one is a conflict: the server refuses it
and sends its own version back, the device takes that version and keeps its own as a conflict.

This project models that machinery in Dafny and proves what it is meant to guarantee.

| files | what they hold |
|---|---|
| `VectorClock`, `ClockText` | revisions: order, join, increment, and their text form |
| `Documents`, `ChangeLog`, `LogScan`, `Pruning`, `Replica`, `ReplicaLaws`, `Preservation` | documents, the log, pruning of conflicts, a replica as a value, what each of its operations leaves, and that no version is lost |
| `Link`, `LinkInvariant`, `LinkRely`, `LinkClient`, `LinkSend`, `LinkReceive`, `LinkRefusal` | one client's session with the server as steps, and its invariant under everybody's writes and refused deliveries |
| `Star`, `Guarantees`, `CarefulRuns`, `History`, `Arrivals`, `Losses`, `Naming` | the server with any number of clients, and the guarantees over all runs, each with its exact condition |
| `ConcreteRuns`, `Skipping`, `Refusals`, `UnseenRevisions` | runs given step by step that show why the conditions are needed; one more is in `Losses` |
| `Sqlite`, `Revisions`, `Exchange` | the SQL database and the synchroniser as classes, proved against the replica and the steps |
| `GenIds`, `Couch`, `Backend`, `ServerSync`, `ServerLink` | the CouchDB database with its batches, the server backend, the server's side of an upload, and that it is the sending half of a session |
| `Lines`, `Framing`, `Receiver`, `Pipes` | the upload and download streams, and the blob pipes |
| `Getters`, `GetterLaws`, `QueryParser`, `ParserLaws`, `Index`, `IndexLaws` | index expressions, their values and their texts, the table of indexed values, and what a query finds |
| `Texts`, `Wrappers` | strings as Python handles them; `Option`, `Result` and the errors |

`dafny verify dfyconfig.toml` checks everything.

## How the model is set up

* `Replica` is a value with the current versions, the conflicts, the log and the known sync points.
  The functions of `Replica.dfy` are the specification; the SQL class and the CouchDB backend are
  proved to do exactly what they say, so the theorems about replicas hold for both.
* A session is split into the smallest steps between which somebody else can write: reading a
  document to send, its insertion, recording the source's generation, finding the changes, reading
  a document to return, its delivery, completing, checking the gapless rule, reporting. A session
  can be given up before any step. A run is any list of such steps and local writes.
* Transaction ids are drawn from a supply given to each replica. Revisions are clocks rather than
  texts; `ClockText.EqualTextMeansEqualClock` says that this loses nothing.
* The conflicts of a document are kept in one order, new ones last; SQL promises none, and an index
  may give another. What is proved of pruning holds for any order, except where
  `PrunedSetIgnoresOrderExactlyWhen` says how far it matters. The order also decides whether a delivery
  is refused, because a conflict merged first can prune the duplicate row
  (`RefusalIgnoresOrderExactlyWhen`). `put_doc`, `delete_doc` and
  `resolve_doc` run in a transaction and leave the tables as they were when they raise;
  `_put_doc_if_newer` does not (client/_db/sqlite.py:506-512).
* A delivery that raises is refused, and the next one is made all the same: deliveries are queued, and
  an error only reaches the deferred of the whole response (client/http_target/fetch.py:96-131,
  client/http_target/fetch_protocol.py:127-129). Whether the sync then completes depends on whether the
  response had ended; the steps allow both, `Synchronizer.Sync` has it as a parameter. A link also
  notes which documents were refused last (`skipped`); no step looks at that.
* On the server, generations stay below the ten digits of their ids, and no user document has an id
  among those ids; every id that does not start with "gen-" is free (`Couch.GenKeysHaveThePrefix`).
  Local operations of the backend are called outside a batch, as in the program.
* A sync never saves conflicts on the server, as in `server/sync.py`. In runs, the server itself writes
  by put and delete only, and a client that resolves names revisions that, apart from its own counter,
  know no more than what it holds; everything it has ever held is such a revision
  (`Naming.SeenRevisionsCanBeNamed`).

## What turned out differently from what one might expect

* "Everything logged up to the recorded generation has arrived" is false after an abandoned
  download: a document logged twice is returned at its later place only, so a generation between the
  two can be recorded while nothing of it has arrived (`Skipping.ARecordedGenerationCanSkipAVersion`).
  `Arrivals` says exactly when: only between such a download and the next completed one, and only for
  documents that were still to come.
* A refused delivery is not made up for until one side writes the document again. The sync goes on,
  later generations are recorded, and the document then differs on the two sides while neither lists it
  (`Refusals.ARefusedDeliveryIsNotMadeUpFor`, `Guarantees.RefusedStaysDifferent`). The conflicts pruned
  for it are gone, which can lose a version (`Losses.ARefusalCanLoseAVersion`). Refusals come
  from two resolutions that share a revision (`TwoResolutionsCanShareARevision`). A caller can rule
  them out by checking each resolution beforehand (`Preservation.KeepsApart`); `CarefulRuns` proves that
  nothing is then refused, missed or lost, and that one undisturbed sync always brings agreement.
* A resolution may name any revision. If it names a counter the server has not reached, a later version
  of the server can be taken for an old one and never arrive
  (`UnseenRevisions.AnUnseenRevisionHidesAChange`).
* The gapless rule also counts a conflict that resolved itself because the target's version equals a
  stored conflict. The source then has a newer revision that is never sent, though the content is the
  same (`CountedInsertionIsNewerExactlyWhen`).
* The documentation of `_put_doc_if_newer` does not mention that a document that made stored
  conflicts obsolete, or that was edited to the same content on both sides, is stored with a new
  revision and answered as superseded. The model follows the code.
* Which conflicts are pruned can depend on their order; the resulting revision never does.
* A batch cannot store a tombstone that has conflicts, while a single save can. The two databases
  refuse different resolutions (`Backend.ResolvingAgreesExactlyWhen`) and different conflicts
  (`Backend.ForcingAgreesExactlyWhen`).
* Generation ids stop sorting as numbers beyond ten digits.
* A deleted document can be found through an index on `is_null`, exactly if the index was there when
  it was deleted and ever since (`Index.IndexThenDelete`, `Index.DeleteThenIndex`).
* An upload cut within a content is refused, but the part that arrived has been handed on by then
  (`Framing.CutContentIsHandedOn`); documents that arrived whole are handed on as sent.
* A download that ends with a proper end of response is accepted without its closing bracket. Any other
  end is an error even if the bracket was seen.

## Model

| member | source | states |
|---|---|---|
| Guarantees.NothingIsMissedExactlyWhen | src/leap/soledad/common/l2db/sync.py:188-252 | In every run from the empty system (any clients, any interleaving, syncs given up at any step), a document that neither side will send next is the same on both sides exactly when its last delivery to the client was not refused |
| CarefulRuns.NothingIsMissed | src/leap/soledad/common/l2db/sync.py:188-252 | If every resolution of the run checked that its revision is not that of a conflict: a document on which a client and the server differ is in the list one of them will send next |
| Guarantees.SkippedExactlyWhen | src/leap/soledad/client/http_target/fetch.py:96-131 | A document counts as skipped exactly when the replaced version has the revision of a conflict that stays stored, judged at its last delivery; the session goes on with the next document |
| Refusals.ARefusedDeliveryIsNotMadeUpFor | src/leap/soledad/client/http_target/fetch.py:52-79 | A concrete run: one of two deliveries is refused, the sync completes and records the newest generation, and the two sides differ on a document neither of them lists |
| Guarantees.RefusedStaysDifferent | src/leap/soledad/common/l2db/sync.py:94-158 | Such a document stays different: no later undisturbed sync makes up for it until one side writes it again |
| Arrivals.RecordedVersionsHaveArrived | src/leap/soledad/client/sync.py:144-231 | In every run, the version logged at a recorded generation is covered at the client, unless the document has a later row, beyond the recorded generation, that was reported to a download abandoned since the last completed one; if the last delivery of its document was refused, exactly if it was covered before |
| Arrivals.RefusedExactlyWhen | src/leap/soledad/client/http_target/fetch.py:96-131 | In every run, of a document whose last delivery was refused, exactly those logged versions are covered that were before that delivery |
| Arrivals.CompletedDownloadsHaveArrived | src/leap/soledad/client/sync.py:195-215 | When a download completes, in any run, every version logged up to the generation then recorded is covered; if the last delivery of its document was refused, exactly if it was before |
| Arrivals.CarefulDownloadsHaveArrived | src/leap/soledad/client/sync.py:195-215 | If resolutions were careful, without exception |
| Arrivals.AbandonedExactlyWhen | src/leap/soledad/common/l2db/sync.py:254-282 | Wherever a download is given up, for every version logged when it began, an exact condition: of a document still to come, covered as it was when the download began; of a refused one, as it was before the refused delivery; of any other, always |
| History.VersionsAreLogged | src/leap/soledad/client/_db/sqlite.py:414-443 | The history used above is right: one version for each row, the last row of a document its current version, later rows of a document strictly newer |
| Guarantees.RecordedGenerationIsHonestExactlyWhen | src/leap/soledad/client/sync.py:144-231 | In every run, of a document not logged beyond the recorded generation, the client has the server's version or a newer one exactly when the last delivery was not refused |
| Skipping.ARecordedGenerationCanSkipAVersion | src/leap/soledad/common/l2db/sync.py:254-282 | The exception of abandoned downloads is real: a concrete run after which generation 2 is recorded although the document logged at generation 1 never arrived |
| Guarantees.SyncPointsAreAlwaysValid | src/leap/soledad/common/l2db/backends/__init__.py:122-152 | In every run, neither side ever refuses a generation or transaction id the other names |
| Guarantees.AnswersAreKept | src/leap/soledad/common/l2db/sync.py:188-252 | In every run, a document answered as superseded or conflicting is returned by the same exchange unless its last delivery was refused and it was not logged again; one inserted or converged is returned exactly if it was logged again after the answer |
| Guarantees.RefusedUploadsAreReturnedExactlyWhen | src/leap/soledad/server/sync.py:128-170 | An upload answered as superseded or conflicting is among the changes found to return exactly when its last delivery was not refused or it was logged again |
| Guarantees.SettledUploadsAreReturnedExactlyWhen | src/leap/soledad/server/sync.py:78-91 | A settled upload is among the changes returned exactly when it was logged again after its answer and after the recorded generation |
| Guarantees.ConvergesAfterAnyRunExactlyWhen | src/leap/soledad/common/l2db/sync.py:94-158 | After any run, one undisturbed sync leaves client and server with equal content or tombstone of a document exactly when the state before receiving does not say that its delivery will be refused |
| CarefulRuns.ConvergesAfterAnyRun | src/leap/soledad/common/l2db/sync.py:94-158 | After any run with careful resolutions, one undisturbed sync brings client and server together on every document |
| Guarantees.QuietSyncAgreesExactlyWhen | src/leap/soledad/common/l2db/sync.py:94-158 | The same from every state of the invariant; the sync always finishes, and it skips exactly the documents foreseen |
| CarefulRuns.QuietSyncAgrees | src/leap/soledad/common/l2db/sync.py:94-158 | With all revisions of a document different at the client, an undisturbed sync ends in full agreement |
| Guarantees.CompletedSyncAgreesExactlyWhen | src/leap/soledad/client/sync.py:144-231 | A session that completes, with other clients writing freely until the server was asked and the source's log grown by this session's insertions only, ends with agreement on a document exactly when it was not refused |
| CarefulRuns.CarefulRunIsApart | src/leap/soledad/client/_db/sqlite.py:550-578 | If resolutions are careful, all revisions of a document stay different at every client and no delivery is ever refused |
| CarefulRuns.NothingIsLost | src/leap/soledad/client/_db/sqlite.py:354-578 | In such a run no version is lost between any two moments, on the server or on any client |
| Guarantees.GaplessIsHonest | src/leap/soledad/common/l2db/sync.py:73-92 | If the source reports its generation, every row logged since the start was an insertion of this exchange, and nothing of it needs to go back |
| Guarantees.SessionWritesNothingOutside | src/leap/soledad/common/l2db/sync.py:44-71 | No step of a session adds a row that its count of insertions does not account for |
| Guarantees.LocalWritesAreOutside | src/leap/soledad/common/l2db/sync.py:73-92 | Every local write that logs is one row the count does not account for, so the generation is then not reported |
| Guarantees.CountedInsertionIsNewerExactlyWhen | src/leap/soledad/client/_db/sqlite.py:524-548 | A counted insertion leaves a revision newer than the target's exactly when the document conflicts and equals a stored conflict; the content is then the target's all the same |
| Star.RunKeepsInv | src/leap/soledad/client/sync.py:59-231 | The invariant of every link, refused deliveries included, holds after every run |
| Star.ApplyKeepsInv | src/leap/soledad/client/sync.py:59-231 | Every local write and every session step, a refused delivery included, keeps the invariant of every link |
| Star.ServerLogOnlyGrows | src/leap/soledad/client/http_target/api.py:203-224 | The server's log only grows, so the generation reported after sending is never ahead of the one reported with the returned documents |
| LinkReceive.AdvanceKeepsInv | src/leap/soledad/common/l2db/sync.py:94-158 | Each step of a session, including giving it up, keeps the link invariant |
| LinkReceive.DeliverKeepsInv | src/leap/soledad/client/http_target/fetch.py:96-131 | A delivery keeps the link invariant whether it is accepted or refused |
| LinkRefusal.AdvanceKeepsFullInv | src/leap/soledad/client/http_target/fetch.py:96-131 | Each step keeps what is known of refused documents: the client lacks something of the server's, and while neither side logs the document again the contents differ |
| LinkRefusal.LocalActionKeepsFullInv | src/leap/soledad/client/_db/sqlite.py:354-578 | So does a put, delete or resolve at the client in the middle of any session |
| LinkReceive.MergeIsAbsorbed | src/leap/soledad/common/l2db/sync.py:44-71 | What a delivered document may do to the client: its revisions come from held ones, the content taken is the target's or a newer one of ours |
| LinkSend.MergeIsAnswered | src/leap/soledad/common/l2db/sync.py:188-224 | What an uploaded document may do to the server, outcome by outcome |
| LinkReceive.ToReturnSpec | src/leap/soledad/common/l2db/sync.py:226-252 | The changes to return are exactly the listed ones that are not settled or were logged again, in order |
| LinkClient.LocalActionKeepsInv | src/leap/soledad/client/_db/sqlite.py:354-578 | A put, delete or resolve in the middle of any session keeps the link invariant |
| LinkRely.ServerWriteKeepsInv | src/leap/soledad/server/sync.py:128-170 | A write of another client on the server in the middle of any session keeps the link invariant |
| Preservation.NoVersionIsLostExactlyWhen | src/leap/soledad/client/_db/sqlite.py:354-578 | Over any sequence of puts, deletes, resolutions and insertions, no version is lost between any two moments exactly when no step is a refused insertion for which, on the state before it, some conflict goes and no conflict that stays is newer |
| Preservation.NoVersionIsLost | src/leap/soledad/client/_db/sqlite.py:354-578 | In particular when no insertion with conflicts saved is refused |
| Preservation.ActionLosesNothingExactlyWhen | src/leap/soledad/client/_db/sqlite.py:524-548 | The same for one operation |
| Preservation.RefusesExactlyWhen | src/leap/soledad/client/_db/sqlite.py:542-548 | Whether an insertion is refused, from the state before it: the versions conflict, differ in content, and a conflict with our revision does not go |
| Preservation.RefusalIgnoresOrderExactlyWhen | src/leap/soledad/client/_db/sqlite.py:524-548 | Whether it is refused does not depend on the order of the conflicts exactly when that conflict is not covered only by the merged clock |
| Pruning.PrunedExactlyWhen | src/leap/soledad/client/_db/sqlite.py:524-540 | A revision is pruned exactly when a conflict that has it says what the incoming version says, or is older than the incoming clock joined with the conflicts read before that say so |
| Losses.ClientLosesNothingExactlyWhen | src/leap/soledad/client/http_target/fetch.py:96-131 | In every run of the whole system, a client loses no version between any two moments exactly when no delivery to it is refused and drops a conflict in that sense |
| Losses.ServerLosesNothingEver | src/leap/soledad/common/l2db/sync.py:188-224 | The server never loses a version |
| Losses.ARefusalCanLoseAVersion | src/leap/soledad/client/http_target/fetch.py:52-79 | A concrete run from the empty system: a whole sync completes, and a conflict the client held is gone with nothing held that covers it |
| Naming.SeenRevisionsCanBeNamed | src/leap/soledad/client/_db/sqlite.py:550-578 | What the theorems on runs assume of resolutions never excludes a revision the client has held, whatever has become of it |
| UnseenRevisions.AnUnseenRevisionHidesAChange | src/leap/soledad/client/_db/sqlite.py:550-578 | Why they assume it: a concrete run in which a resolution names a revision nobody has written, and in the end the two sides differ on a document that neither lists, without any refused delivery |
| Preservation.MergeLosesNothing | src/leap/soledad/common/l2db/backends/__init__.py:154-194 | Taking in a version loses nothing, and with conflicts saved the incoming version itself is held or superseded |
| Preservation.ResolveLosesNothing | src/leap/soledad/client/_db/sqlite.py:550-578 | A resolution only drops versions it supersedes |
| Preservation.ResolutionKeepsRevisionsApartExactlyWhen | src/leap/soledad/client/_db/sqlite.py:550-578 | A resolution succeeds and keeps the revisions of a document distinct exactly when its revision is not that of a conflict, whether it becomes current or one more conflict |
| Preservation.TwoResolutionsCanShareARevision | src/leap/soledad/client/_db/sqlite.py:550-578 | Two resolutions in a row can give one revision to two contents |
| Replicas.ResolutionIsNeverSuperseded | src/leap/soledad/client/_db/sqlite.py:566-578 | A resolution's revision is newer than the current one and all it supersedes, so it is never among the superseded: the open question beside resolve_doc |
| Replicas.JoinAllCovers | src/leap/soledad/common/l2db/backends/__init__.py:196-201 | Maximising over revisions covers every one of them |
| Pruning.PruneIsSafe | src/leap/soledad/client/_db/sqlite.py:524-540 | Every pruned conflict is strictly older than the resulting revision, which is the incoming one unless a conflict was merged in, then a strictly newer one |
| Pruning.AutoresolvesExactlyWhen | src/leap/soledad/client/_db/sqlite.py:524-540 | The revision changes exactly when some conflict has the same content and is not older |
| Pruning.PrunedDocIgnoresOrder | src/leap/soledad/common/backend.py:593-619 | The resulting document does not depend on the order of the stored conflicts |
| Pruning.PrunedSetIgnoresOrderExactlyWhen | src/leap/soledad/common/backend.py:593-619 | The pruned revisions do not depend on that order exactly when no conflict is covered only by the merged clock |
| ChangeLog.ChangesSpec | src/leap/soledad/client/_db/sqlite.py:414-443 | Exactly one entry per document changed after the generation, with its last generation and transaction id, strictly ascending |
| ChangeLog.NoChangesExactlyWhen | src/leap/soledad/client/_db/sqlite.py:414-443 | There are no changes exactly when the log has no row beyond the generation |
| ChangeLog.PointsExactly | src/leap/soledad/client/_db/sqlite.py:414-443 | The newest generation and its transaction id, and which points are on the log |
| ChangeLog.LastGen | src/leap/soledad/client/_db/sqlite.py:414-443 | The last row of a document, 0 if there is none |
| VectorClocks.VectorClockRev.IsNewer | src/leap/soledad/common/l2db/vectorclock.py:53-73 | Whatever order the dictionary is visited in, the loop decides the strict order of clocks |
| VectorClocks.VectorClockRev.IncrementFor | src/leap/soledad/common/l2db/vectorclock.py:75-80 | The clock becomes its increment for one replica |
| VectorClocks.VectorClockRev.Maximize | src/leap/soledad/common/l2db/vectorclock.py:82-89 | The clock becomes the join of both |
| VectorClocks.NewerExactlyWhen | src/leap/soledad/common/l2db/vectorclock.py:53-73 | Newer: no counter is less, an absent one less than any, and one is greater |
| VectorClocks.IncrementExactly | src/leap/soledad/common/l2db/vectorclock.py:75-80 | An increment raises one counter by one, from nothing to one, and leaves the others |
| VectorClocks.JoinExactly | src/leap/soledad/common/l2db/vectorclock.py:82-89 | The join has every counter of both, the greater of two |
| VectorClocks.NewerIsStrictOrder | src/leap/soledad/common/l2db/vectorclock.py:53-73 | Newer is a strict partial order, also through covering |
| VectorClocks.AbsentIsBelowAnyCounter | src/leap/soledad/common/l2db/vectorclock.py:53-73 | A replica that is absent counts as less than any counter |
| VectorClocks.JoinIsLeastUpperBound | src/leap/soledad/common/l2db/vectorclock.py:82-89 | The join is the least clock that covers both |
| VectorClocks.IncrementIsNewer | src/leap/soledad/common/l2db/vectorclock.py:75-80 | An increment is strictly newer |
| ClockText.Expand | src/leap/soledad/common/l2db/vectorclock.py:43-51 | The loop reads exactly the clock a text denotes, or refuses it |
| ClockText.PrintedClockIsReadBackExactlyWhen | src/leap/soledad/common/l2db/vectorclock.py:38-51 | A printed clock is read back as itself exactly when it is not empty and no uid contains a separator |
| ClockText.PrintedExactly | src/leap/soledad/common/l2db/vectorclock.py:38-41 | The text of a revision: uid, colon and number for every counter, by increasing uid, with bars in between |
| ClockText.ReadExactly | src/leap/soledad/common/l2db/vectorclock.py:43-51 | Reading takes a text apart at its bars; no text is the empty clock |
| Texts.DecimalExactly | src/leap/soledad/common/l2db/vectorclock.py:38-41 | How a number is printed: its digits in base ten, and a sign |
| Texts.ReadIsANumeral | src/leap/soledad/common/l2db/vectorclock.py:43-51 | Only digits with at most one sign in front are read as a number |
| ClockText.PartsAreReadExactlyWhen | src/leap/soledad/common/l2db/vectorclock.py:43-51 | Parts are read exactly if each is a uid and an integer with exactly one colon in between |
| ClockText.CountersAreRead | src/leap/soledad/common/l2db/vectorclock.py:43-51 | Of two counters of one replica the last one stays |
| ClockText.EqualTextMeansEqualClock | src/leap/soledad/common/l2db/vectorclock.py:38-51 | Comparing revisions as text is comparing clocks |
| Sqlite.SqliteDatabase.PutDoc | src/leap/soledad/client/_db/sqlite.py:354-375 | The new tables are the specified replica, with the same errors in the same order |
| Sqlite.SqliteDatabase.DeleteDoc | src/leap/soledad/client/_db/sqlite.py:445-460 | Likewise for deletion; the document becomes a tombstone |
| Sqlite.SqliteDatabase.WhatsChanged | src/leap/soledad/client/_db/sqlite.py:414-443 | One pass from the end of the log computes the list of changes and the newest generation |
| Sqlite.SqliteDatabase.PruneConflicts | src/leap/soledad/client/_db/sqlite.py:524-540 | The loop over the rows computes the pruned document and the kept conflicts |
| Sqlite.SqliteDatabase.ForceDocSyncConflict | src/leap/soledad/client/_db/sqlite.py:542-548 | The incoming version becomes current, ours a conflict; a duplicate row is refused, and the pruned rows stay deleted |
| Sqlite.SqliteDatabase.ResolveDoc | src/leap/soledad/client/_db/sqlite.py:550-578 | The resolution becomes current or one more conflict, and the superseded conflicts are deleted |
| Sqlite.SqliteDatabase.AddConflict | src/leap/soledad/client/_db/sqlite.py:514-516 | A row is added unless its revision is already there |
| Sqlite.SqliteDatabase.PutDocIfNewer | src/leap/soledad/common/l2db/backends/__init__.py:154-194 | The four outcomes, and the source's generation recorded afterwards; a refused insertion leaves the pruned rows deleted and records nothing |
| ReplicaLaws.PutDocExactly | src/leap/soledad/client/_db/sqlite.py:354-375 | When a put is refused and with which error, the id checked character by character, over what is stored and the revision given; and otherwise what is stored, logged and left alone, a tombstone overwritten without a revision included |
| ReplicaLaws.AllocatedIdIsAccepted | src/leap/soledad/common/l2db/backends/__init__.py:40-54 | Ids of the form the program allocates are always accepted |
| ReplicaLaws.DeleteDocExactly | src/leap/soledad/client/_db/sqlite.py:445-460 | The same for deletion |
| ReplicaLaws.ResolveDocExactly | src/leap/soledad/client/_db/sqlite.py:550-578 | The resolution has the least revision above the current and the named ones; exactly the conflicts whose revision is not named stay, it becomes current or one more conflict, and it is refused exactly when a conflict has its revision |
| ReplicaLaws.FullResolutionSettles | src/leap/soledad/client/_db/sqlite.py:550-578 | Naming the current revision and every conflict leaves no conflict, only the resolution is held, and the document can be put again |
| ReplicaLaws.OutcomesExactly | src/leap/soledad/common/l2db/backends/__init__.py:154-194 | Each of the four outcomes, exactly when it is given |
| ReplicaLaws.NewerVersionLeaves | src/leap/soledad/common/l2db/backends/__init__.py:154-194 | What is stored of a newer version, and which conflicts stay |
| ReplicaLaws.ConflictLeaves | src/leap/soledad/client/_db/sqlite.py:542-548 | What is stored of a conflicting version, and which conflicts there are then |
| ReplicaLaws.SameContentLeaves | src/leap/soledad/common/l2db/backends/__init__.py:154-194 | Of a conflicting version with the same content, a revision above both is stored |
| ReplicaLaws.OthersLeaveAlone | src/leap/soledad/common/l2db/backends/__init__.py:154-194 | Every other version changes nothing |
| ReplicaLaws.SyncPointExactly | src/leap/soledad/common/l2db/backends/__init__.py:135-201 | A generation behind the one recorded, or the same with another transaction id, is refused and changes nothing; otherwise it is recorded unless the insertion raises |
| Replicas.MergeFailsExactlyWhen | src/leap/soledad/common/l2db/backends/__init__.py:154-194 | Taking in a version raises exactly for a duplicate conflict row, or for an empty revision of a document not there yet |
| Sqlite.SqliteDatabase.ValidateGenAndTransId | src/leap/soledad/common/l2db/backends/__init__.py:122-133 | Accepted exactly when the log really has that generation with that transaction id |
| LogScan.CollectRow | src/leap/soledad/client/_db/sqlite.py:414-443 | One row back in the log keeps what has been collected |
| Exchange.SyncExchange.InsertDocFromSource | src/leap/soledad/common/l2db/sync.py:188-224 | Conflicts are not stored; exactly inserted and converged documents are noted as seen |
| Exchange.SyncExchange.FindChangesToReturn | src/leap/soledad/common/l2db/sync.py:226-252 | The loop keeps exactly the changes not seen or changed since |
| Exchange.Synchronizer.InsertDocFromTarget | src/leap/soledad/common/l2db/sync.py:44-71 | The target's version is taken, ours kept as a conflict, and insertions and conflicts counted; what an error leaves behind |
| Exchange.Synchronizer.RecordSyncInfoWithTheTarget | src/leap/soledad/common/l2db/sync.py:73-92 | The generation is reported exactly when the log grew by the counted insertions alone |
| Exchange.Synchronizer.ReceiveDocs | src/leap/soledad/client/http_target/fetch.py:96-131 | Every returned document is inserted in order, also after one that raised; the first error is kept, and there is none exactly when no insertion raised |
| Exchange.Synchronizer.Sync | src/leap/soledad/client/sync.py:59-231 | A whole sync over two databases is the specified run of steps. From the invariant it succeeds exactly when there is nothing to exchange, or the state before receiving says that nothing will be refused, or the response had ended when something was; then both agree exactly on the documents not foreseen as skipped. A failed one leaves all insertions made. With all revisions different it always succeeds and everything agrees. For any two databases: equal uids, a generation or transaction id not on the source's log, one not on the target's when there is something to exchange, and another transaction id when there is nothing are each refused with their own error and change nothing |
| Exchange.NothingRaisesExactlyWhen | src/leap/soledad/client/_db/sqlite.py:542-548 | Whether an insertion of the sync to come will raise, judged on the state before the first one |
| GenIds.GenIdExactly | src/leap/soledad/common/couch/__init__.py:96-97 | The id of a generation: ten digits with zeros in front, or more if it has more |
| GenIds.GenIdOrder | src/leap/soledad/common/couch/__init__.py:96-97 | Below ten digits the zero-padded ids order, and differ, as the generations do |
| GenIds.GenIdOrderEndsAtTheLimit | src/leap/soledad/common/couch/__init__.py:96-97 | The first longer generation sorts before nine tenths of the earlier ones |
| Couch.ViewShowsLog | src/leap/soledad/common/couch/__init__.py:572-597 | The view from a generation on shows exactly the rest of the log in order |
| Couch.GenKeysHaveThePrefix | src/leap/soledad/common/couch/__init__.py:572-597 | Only ids that start with "gen-" can get in the way of the view |
| Couch.LogGrows | src/leap/soledad/common/couch/__init__.py:660-705 | Storing a document and the next generation document extends the log by exactly that entry |
| Couch.CouchDatabase.GetGenerationInfo | src/leap/soledad/common/couch/__init__.py:627-640 | The newest generation, pending ones included |
| Couch.CouchDatabase.WhatsChanged | src/leap/soledad/common/couch/__init__.py:599-625 | The loop over the reversed tail computes the same list of changes as the SQL one |
| Couch.CouchDatabase.PerformBatch | src/leap/soledad/common/couch/__init__.py:387-399 | What is accepted is stored; the batch is emptied only when everything was |
| Couch.CouchDatabase.GetDoc | src/leap/soledad/common/couch/__init__.py:343-385 | A read shows the latest version, storing the pending batch first if the document is in it, and changes no document |
| Couch.CouchDatabase.SaveDocument | src/leap/soledad/common/couch/__init__.py:707-798 | In and out of a batch one more generation is logged for the document; which saves are refused, and that nothing is then changed |
| Couch.CouchDatabase.BatchStart | src/leap/soledad/common/couch/__init__.py:177-181 | Nothing stored changes; the ids present are remembered |
| Couch.CouchDatabase.BatchEnd | src/leap/soledad/common/couch/__init__.py:183-186 | Everything pending is stored, or the conflict is reported |
| Backend.ResolvingAgreesExactlyWhen | src/leap/soledad/common/backend.py:463-504 | Both databases resolve to the same documents and conflicts; exactly when their logs differ and when only one of them refuses |
| Backend.SoledadBackend.PutDoc | src/leap/soledad/common/backend.py:278-313 | The same specification as the SQL database, with the conflicts the caller's document carries |
| Backend.SoledadBackend.DeleteDoc | src/leap/soledad/common/backend.py:334-364 | Likewise for deletion |
| Backend.SoledadBackend.ResolveDoc | src/leap/soledad/common/backend.py:463-504 | The specified resolution, and the caller's document ends up with the stored conflicts |
| Backend.SoledadBackend.PruneConflicts | src/leap/soledad/common/backend.py:593-619 | The loop over a document's own conflicts computes the same pruning as the one over the SQL table |
| Backend.SoledadBackend.PutDocIfNewer | src/leap/soledad/common/backend.py:506-567 | The same four outcomes, with conflicts saved or not; in a batch the source's generation is held back |
| Backend.SoledadBackend.ForceDocSyncConflict | src/leap/soledad/common/backend.py:449-461 | The incoming version becomes current and ours one more conflict, or a batch refuses a tombstone |
| Backend.ServerResolveExactly | src/leap/soledad/common/backend.py:463-504 | Of the server too: exactly the conflicts whose revision is not named stay |
| Backend.ServerFullResolutionSettles | src/leap/soledad/common/backend.py:463-504 | On the server too, a full resolution leaves no conflict and the document can be put again |
| Backend.AnsweringAgreesExactlyWhen | src/leap/soledad/common/backend.py:506-567 | The server answers a document as the SQL database does, validation included, apart from the duplicate row; recording the generation is left for later |
| Backend.ForcingAgreesExactlyWhen | src/leap/soledad/common/backend.py:449-461 | Both databases save a conflict alike; the server stores exactly the duplicates the SQL table refuses, and never loses a version |
| Backend.SoledadBackend.BatchStart | src/leap/soledad/common/backend.py:62-71 | Nothing changes but the mode, and only if batches are supported |
| Backend.SoledadBackend.BatchEnd | src/leap/soledad/common/backend.py:73-80 | The documents are stored first; the source's generation is recorded only if all of them were |
| Documents.ServerDocument.AddConflict | src/leap/soledad/common/document.py:156-166 | Appends, or fails if the conflicts were never fetched |
| Documents.ServerDocument.DeleteConflicts | src/leap/soledad/common/document.py:168-180 | Keeps exactly the conflicts whose revision is not named |
| ServerSync.SyncExchange.BatchedInsertFromSource | src/leap/soledad/server/sync.py:118-126 | With batches or without, an upload leaves the documents, log, sync point and seen ids of one-by-one insertion; a batch is all or nothing and succeeds exactly when one-by-one insertion does and stores no tombstone with conflicts |
| ServerSync.NextIsAnsweredAlike | src/leap/soledad/server/sync.py:128-170 | Holding back the source's generation does not change how the next document is answered |
| ServerSync.MergeIgnoresKnown | src/leap/soledad/common/l2db/backends/__init__.py:154-194 | How a document is merged does not depend on what is known of other replicas |
| ServerSync.InsertAllAppend | src/leap/soledad/server/sync.py:118-126 | Inserting in two batches is inserting in one |
| ServerSync.SyncExchange.InsertDocFromSource | src/leap/soledad/server/sync.py:128-170 | One answer, and exactly settled documents noted as seen with the generation reached |
| ServerSync.SyncResource.PostPut | src/leap/soledad/server/sync.py:218-249 | However the documents of an upload fall into batches, the server is where one-by-one insertion would have left it, and after the last one, or beyond eight megabytes, nothing is left staged; it is refused exactly when such a batch is |
| ServerSync.FitsExactly | src/leap/soledad/common/couch/__init__.py:780-798 | Whether a batch can take an upload, told document by document: none is stored as a tombstone with conflicts |
| ServerSync.SyncExchange.FindChangesToReturn | src/leap/soledad/server/sync.py:59-91 | The first time in a session, exactly the changes not noted as seen or changed since; later only their number and generation are known |
| ServerLink.UploadIsSendRounds | src/leap/soledad/server/sync.py:118-170 | What inserting an upload does to the server and to the seen ids is what the sending rounds of a session do, so what is proved of runs applies to the batching server too, when no other session writes between the start and the end of a batch |
| ServerLink.FoundIsToReturn | src/leap/soledad/server/sync.py:59-91 | What the server then finds to return is what the session returns |
| Lines.FencedReader.GetLine | src/leap/soledad/common/l2db/remote/http_app.py:84-105 | Whatever sizes the chunks have, the next line exactly, or a refusal exactly when it is too long |
| Framing.RequestBody.InsertInfo | src/leap/soledad/client/http_target/support.py:162-174 | The description, a comma and a line break, and the content or nothing are appended as one entry |
| Framing.RequestBody.Pop | src/leap/soledad/client/http_target/support.py:176-195 | The first entries, opened and closed as the state and the flag say |
| Framing.StartProducing | src/leap/soledad/client/http_target/send_protocol.py:43-61 | The pieces written make up the one-shot body of the documents written, also when stopped early |
| Framing.Receive | src/leap/soledad/server/__init__.py:145-174 | The server's loop computes what the stream means, documents handed on before the end is seen |
| Framing.UploadIsReadBackExactlyWhen | src/leap/soledad/server/__init__.py:145-174 | Any upload, tombstones and none at all included, is accepted exactly when all its lines fit; then the i-th document handed on has the i-th description and exactly the content given, only an empty content having become none |
| Framing.BodyOfNone | src/leap/soledad/client/http_target/support.py:162-195 | The text of a stream without documents |
| Framing.OpeningMatters | src/leap/soledad/server/__init__.py:145-152 | Another first line than a bracket, or a line too long at the start, is refused with nothing handed on |
| Framing.BodyOfOneMore | src/leap/soledad/client/http_target/support.py:162-195 | The text of the stream: one more document puts a comma, its description on one line and its content on the next before the end |
| Framing.CommasMatter | src/leap/soledad/server/__init__.py:145-174 | A comma where nothing follows, or none where a document follows, makes the server refuse the upload |
| Framing.BodyAndMoreIsRefused | src/leap/soledad/server/__init__.py:169-170 | So does anything behind the closing bracket |
| Framing.WholeDocumentsAreHandedOn | src/leap/soledad/server/__init__.py:158-168 | Whatever comes after them, the documents that arrived whole are handed on as sent |
| Framing.CutContentIsHandedOn | src/leap/soledad/server/__init__.py:158-170 | An upload cut within a content is refused, but the part of the content that arrived has been handed on by then |
| Framing.CutUploadIsRefused | src/leap/soledad/server/__init__.py:145-174 | An upload cut anywhere before its end is never accepted |
| Receiver.ChunkArrives | src/leap/soledad/client/http_target/fetch_protocol.py:77-100 | The lines a chunk completes, and what is left over, also when it splits a line break |
| Receiver.StringIO.Write | src/leap/soledad/client/http_target/fetch_protocol.py:77-86 | Stale characters beyond the position never show up again |
| Receiver.DocStreamReceiver.DataReceived | src/leap/soledad/client/http_target/fetch_protocol.py:88-100 | After every chunk the state is that of reading all complete lines received so far |
| Receiver.DocStreamReceiver.ConnectionLost | src/leap/soledad/client/http_target/fetch_protocol.py:61-75 | A proper end with status 200 or 201 yields the metadata; every other end is an error, and which one depends on the bracket and on the kind of end |
| Receiver.Responder.SendDocs | src/leap/soledad/server/sync.py:251-286 | The server writes the metadata and two entries for each document |
| Receiver.DownloadIsReadBack | src/leap/soledad/client/http_target/fetch_protocol.py:102-130 | The i-th document handed on has the description and the content of the i-th sent, an empty content having become none; there is no error, and the stream is finished |
| Receiver.CutDownloadIsAPrefix | src/leap/soledad/client/http_target/fetch_protocol.py:102-140 | A stream cut anywhere has handed on such a prefix of the documents, without error, and never looks finished |
| Receiver.LinesAreReadExactly | src/leap/soledad/client/http_target/fetch_protocol.py:102-130 | For any lines: the stream breaks exactly if a line follows the bracket, the first is no opening bracket, the metadata contains "error" or is no object, or a description has an error or is no object; otherwise every second line is handed on with the one before it |
| Receiver.FaultEndsTheStream | src/leap/soledad/client/http_target/fetch_protocol.py:116-124 | From such a line on nothing is handed on any more |
| Receiver.StreamOfNone | src/leap/soledad/server/sync.py:251-286 | The text of a stream without documents |
| Receiver.StreamOfOneMore | src/leap/soledad/server/sync.py:251-286 | The text of the stream: one more document puts two entries before the end |
| Pipes.TruncatedTailPipe.Write | src/leap/soledad/client/_pipes.py:36-48 | Output and buffer together are the input, and the buffer holds exactly the possible tag |
| Pipes.TruncatedTailPipe.OutputIsInputWithoutTail | src/leap/soledad/client/_pipes.py:26-51 | The output is the input without its last bytes |
| Pipes.DecrypterBuffer.Write | src/leap/soledad/client/_db/blobs/__init__.py:75-101 | Preamble, body and pending tag depend on the bytes written alone, not on the chunks |
| Pipes.DecrypterBuffer.Close | src/leap/soledad/client/_db/blobs/__init__.py:103-114 | The body, all of it for an unsupported scheme, or a refusal exactly when no space came |
| Pipes.BlobParts | src/leap/soledad/client/_pipes.py:54-78 | A preamble, a space, a body and a tag come apart as exactly those |
| QueryParser.Parser.SetExpression | src/leap/soledad/common/l2db/query_parser.py:266-286 | The loop computes the tokens of the stripped expression |
| QueryParser.Parser.ParseTerm | src/leap/soledad/common/l2db/query_parser.py:333-344 | The recursive descent reads exactly the specified term and leaves the rest |
| QueryParser.Parser.ParseOp | src/leap/soledad/common/l2db/query_parser.py:303-331 | Arguments, their conversion and the errors, as specified |
| QueryParser.Parser.ParseExpression | src/leap/soledad/common/l2db/query_parser.py:346-353 | The object computes the specified parse of every text |
| QueryParser.PrintedExpressionIsParsed | src/leap/soledad/common/l2db/query_parser.py:257-353 | Parsing the printed form of any well-formed expression gives it back |
| QueryParser.ParsedExpressionHasAPrintedForm | src/leap/soledad/common/l2db/query_parser.py:257-353 | Every accepted text means a well-formed expression whose printed form parses to the same |
| QueryParser.BlanksAroundDelimiters | src/leap/soledad/common/l2db/query_parser.py:266-286 | Blanks around a delimiter change nothing, for any text |
| QueryParser.StripKeepsTokens | src/leap/soledad/common/l2db/query_parser.py:266-286 | Outer blanks change no token |
| QueryParser.TokensAreTokens | src/leap/soledad/common/l2db/query_parser.py:266-286 | Every token is a delimiter or a stripped, non-empty text without delimiters |
| ParserLaws.PrintedOperations | src/leap/soledad/common/l2db/query_parser.py:134-192 | The text that is parsed as lower or bool of an expression |
| ParserLaws.PrintedIsNull | src/leap/soledad/common/l2db/query_parser.py:239-248 | The text that is parsed as is_null of an expression |
| ParserLaws.PrintedSplitWords | src/leap/soledad/common/l2db/query_parser.py:195-216 | The text that is parsed as split_words of an expression |
| ParserLaws.PrintedField | src/leap/soledad/common/l2db/query_parser.py:80-99 | The text of a field: its names with dots in between |
| ParserLaws.PrintedCombine | src/leap/soledad/common/l2db/query_parser.py:219-236 | The text of a combination of one |
| ParserLaws.PrintedNumber | src/leap/soledad/common/l2db/query_parser.py:153-176 | The text that is parsed as a padded number |
| ParserLaws.PrintedCombineMore | src/leap/soledad/common/l2db/query_parser.py:219-236 | The text that is parsed as a combination: one more expression in front |
| ParserLaws.NothingFollowsAnOperation | src/leap/soledad/common/l2db/query_parser.py:346-353 | Anything but blanks behind a complete operation makes it an error |
| ParserLaws.NoCommaFollows | src/leap/soledad/common/l2db/query_parser.py:346-353 | So does a comma or a closing bracket behind any expression, whatever comes then |
| ParserLaws.UnknownOperationIsRefused | src/leap/soledad/common/l2db/query_parser.py:303-308 | A name other than the six operations cannot be applied |
| ParserLaws.SecondArgumentIsRefused | src/leap/soledad/common/l2db/query_parser.py:303-331 | Two expressions are too many for every operation but combine |
| ParserLaws.WidthIsAnInteger | src/leap/soledad/common/l2db/query_parser.py:317-329 | The width of a number is neither a name nor an operation, and which error each is |
| ParserLaws.NoArgumentsAreRefused | src/leap/soledad/common/l2db/query_parser.py:333-339 | An operation without arguments is an error |
| ParserLaws.TrailingDotIsRefused | src/leap/soledad/common/l2db/query_parser.py:251-254 | A field name that ends in a dot is an error |
| GetterLaws.FieldHasExactly | src/leap/soledad/common/l2db/query_parser.py:57-77 | A dotted path has exactly the values at the ends of all ways along it, through objects and the items of lists, apart from objects, lists and missing values |
| GetterLaws.LowerHasExactly | src/leap/soledad/common/l2db/query_parser.py:134-150 | Exactly the texts among the inner values, letter by letter in lower case |
| GetterLaws.NumberHasExactly | src/leap/soledad/common/l2db/query_parser.py:153-176 | Exactly the integers among the inner values, padded |
| GetterLaws.PaddedExactly | src/leap/soledad/common/l2db/query_parser.py:165-176 | What padding is: zeros between sign and digits up to the width, blanks behind for a negative one |
| GetterLaws.BoolHasExactly | src/leap/soledad/common/l2db/query_parser.py:179-192 | Exactly the booleans among the inner values, as 1 and 0 |
| GetterLaws.SplitWordsHasExactly | src/leap/soledad/common/l2db/query_parser.py:195-216 | Exactly the words, each between blanks or the ends of the text, of the texts among the inner values |
| GetterLaws.IsNullHasExactly | src/leap/soledad/common/l2db/query_parser.py:239-248 | Exactly one value: whether the inner expression has none |
| GetterLaws.CombineHasExactly | src/leap/soledad/common/l2db/query_parser.py:219-236 | Exactly the values of all inner expressions |
| Getters.ValuesAreSimple | src/leap/soledad/common/l2db/query_parser.py:57-77 | An expression never yields an object or a list |
| Getters.NothingHasNoValues | src/leap/soledad/common/l2db/query_parser.py:239-248 | Only is_null yields a value on an empty document |
| Index.IndexedDatabase.PutAndUpdateIndexes | src/leap/soledad/client/_db/sqlite.py:856-881 | Every indexed expression keeps exactly its values on the new content |
| Index.IndexedDatabase.UpdateIndexes | src/leap/soledad/client/_db/sqlite.py:215-232 | Exactly the values of the given fields are added |
| Index.IndexedDatabase.UpdateAllIndexes | src/leap/soledad/client/_db/sqlite.py:915-927 | Exactly the values of new fields are added, for live documents only |
| Index.IndexedDatabase.CreateIndex | src/leap/soledad/client/_db/sqlite.py:883-903 | Which definitions are accepted, that a refused one changes nothing, and agreement afterwards |
| Index.IndexedDatabase.DeleteIndex | src/leap/soledad/client/_db/sqlite.py:807-814 | Rows of fields no index uses any more are gone, all others stay |
| Index.IndexedDatabase.GetFromIndex | src/leap/soledad/client/_db/sqlite.py:663-681 | Which calls are refused and how; finds exactly the live documents a full scan finds, and exactly the deleted ones that an empty document would match and whose expressions were all indexed ever since the deletion |
| Index.IndexedDatabase.JoinFindsExactlyWhen | src/leap/soledad/client/_db/sqlite.py:611-661 | The join finds a document exactly when every expression has a matching value on it, and for a deleted one was indexed ever since |
| Index.IndexedDatabase.DeletedIsNotFound | src/leap/soledad/client/_db/sqlite.py:856-881 | A deleted document is not found through an expression without is_null |
| IndexLaws.FoundExactlyWhen | src/leap/soledad/client/_db/sqlite.py:611-661 | A document is found exactly when every expression of the index has a value on it whose text is the key, matches its pattern, or is anything for a lone star; a deleted one on the terms above |
| IndexLaws.GetByField | src/leap/soledad/client/_db/sqlite.py:611-681 | Through an index on the name of a field, a key finds exactly the live documents that have under that name a text, integer, boolean or real printed as the key, or a list with such an item |
| IndexLaws.IndexThenPutThenGet | src/leap/soledad/client/_db/sqlite.py:663-681 | From the definition of the index and the storing of a document to the answer of the query |
| Index.DeleteThenIndex | src/leap/soledad/client/_db/sqlite.py:883-903 | Deleted before an index on is_null is created, a document is not found through it |
| Index.IndexThenDelete | src/leap/soledad/client/_db/sqlite.py:856-881 | Deleted afterwards, it is |

## Left out

- HTTP, Twisted, TLS, sessions, authentication, throttling, configuration, SQLCipher and CouchDB connections: databases are maps and sequences, callbacks are steps.
- Encryption, HMAC, base64, JSON and the preamble's struct: contents are parsed values or opaque texts; the receiver is given a function that tells the keys of a line.
- Concurrent writers of one CouchDB database: the loop in `_allocate_new_generation` ends in its first round, and the gap between storing a document and storing its generation is not modelled.
- Repeated documents in one batch: the class shows what a read in a batch does, but the upload is assumed to list every document once, as the sending side does.
- LocalActionKeepsInv: a resolution is assumed to name no counters of others beyond those the client holds (`Nameable`), which every revision it has ever held satisfies. `resolve_doc` takes any text; with others the guarantees fail (`UnseenRevisions.AnUnseenRevisionHidesAChange`).
- LocalActionKeepsFullInv: likewise.
- Deliveries still queued when a sync has failed: they are steps of that session; here they come before the client's next session starts.
- The in-process target of the l2db library, which drops the rest of the documents when an insertion raises: in runs this is a refused delivery after which the session is given up.
- ConnectionLost: the server errors that a response with an error status describes are one error here.
- The server backend's cache of sync points, which repeats what the database holds.
- Retrying a download within one server session: the changes are then not set to be returned again, so nothing is promised for it.
- `get_docs`, `get_all_docs`, `create_doc`, document size limits (0, that is none, by default) and replica uid storage: they add nothing to the protocol.
- Python's equality of `True` and `1` and of `1` and `1.0` inside contents: parsed values are compared as values.
- Unicode: blanks, digits and letters are the ASCII ones.
- GetFromIndex: SQLite's GLOB is a parameter; the result is a set, so its order by value is not modelled; has_conflicts is not part of the result.
- Index and document tables are two classes (`Index.IndexedDatabase`, `Sqlite.SqliteDatabase`), although the program keeps them in one database.
- `get_count_from_index`, `get_range_from_index` and `get_index_keys`: counts of joined rows, and orders of the SQL engine.
- The messages of errors.
- The order of the words `split_words` yields, which is that of a hash set in the program and alphabetical here.
- `PreamblePipe` is part of `Pipes.DecrypterBuffer`, whose two callbacks are the only ones it is used with there; `StreamDecrypterBuffer` and `BlobsUpstreamProducer` depend on chunk boundaries.
- DataReceived: nothing is said about chunks that arrive after an error, since the connection is then dropped.
- The pause flag of the producer, and the point in time at which it is asked to stop, which is a parameter.
- The incoming-box loop, retry back-off, blob storage and quotas, migration and profiling scripts: glue around the parts above.
