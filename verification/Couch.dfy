/**
 * The server's database: one store holds the user's documents, with their conflicts attached,
 * and one document for each generation. Saves can be collected in a batch.
 */
module Couch {
  import opened ChangeLog
  import opened Documents
  import opened GenIds
  import opened LogScan
  import opened Texts
  import opened Wrappers

  datatype CouchDoc =
    | UserDoc(version: Version, conflicts: seq<Version>)
    | GenDoc(gen: nat, docId: string, transId: string)

  /** Every stored document has a revision of the store's own, which a save must name. */
  datatype Stored = Stored(couchRev: nat, doc: CouchDoc)

  datatype Draft = Draft(baseRev: Option<nat>, doc: CouchDoc)

  /** A document as it is read; its conflicts are `None` when they are not asked for or there are none. */
  datatype Fetched = Fetched(version: Version, conflicts: Option<seq<Version>>, couchRev: nat)

  // ---------- the store ----------

  predicate Accepts(store: map<string, Stored>, id: string, baseRev: Option<nat>) {
    baseRev == if id in store then Some(store[id].couchRev) else None
  }

  /** A revision names what is stored: its revision, or that nothing is. */
  ghost predicate IsBase(rev: Option<nat>, store: map<string, Stored>, id: string) {
    match rev
    case Some(n) => id in store && store[id].couchRev == n
    case None => id !in store
  }

  function Saved(store: map<string, Stored>, id: string, doc: CouchDoc): Stored {
    Stored(if id in store then store[id].couchRev + 1 else 0, doc)
  }

  /** A bulk update stores the documents it accepts and reports the others. */
  function Applied(store: map<string, Stored>, batch: map<string, Draft>): map<string, Stored> {
    map id | id in store.Keys + batch.Keys && (id in store || Accepts(store, id, batch[id].baseRev)) ::
      if id in batch && Accepts(store, id, batch[id].baseRev) then Saved(store, id, batch[id].doc) else store[id]
  }

  predicate AllAccepted(store: map<string, Stored>, batch: map<string, Draft>) {
    forall id <- batch.Keys :: Accepts(store, id, batch[id].baseRev)
  }

  /** What the database holds once the pending batch is stored. */
  function Effective(store: map<string, Stored>, batch: map<string, Draft>): map<string, CouchDoc> {
    map id | id in store.Keys + batch.Keys :: if id in batch then batch[id].doc else store[id].doc
  }

  lemma StoringABatchShowsIt(store: map<string, Stored>, batch: map<string, Draft>)
    requires AllAccepted(store, batch)
    ensures Effective(Applied(store, batch), map[]) == Effective(store, batch)
  {}

  lemma SavingShows(store: map<string, Stored>, id: string, s: Stored)
    ensures Effective(store[id := s], map[]) == Effective(store, map[])[id := s.doc]
  {}

  lemma DraftingShows(store: map<string, Stored>, batch: map<string, Draft>, id: string, d: Draft)
    ensures Effective(store, batch[id := d]) == Effective(store, batch)[id := d.doc]
    ensures AllAccepted(store, batch) && Accepts(store, id, d.baseRev) ==> AllAccepted(store, batch[id := d])
  {}

  // ---------- the log in the store ----------

  /** The ids a view over the generation documents covers. */
  predicate IsGenKey(id: string) {
    LexAtMost(GenId(0), id) && LexAtMost(id, GenId(LIMIT - 1))
  }

  /** The rows of a view: the ids between two keys, in order. */
  function View(ids: set<string>, first: string, last: string): seq<string> {
    Sorted(set id <- ids | LexAtMost(first, id) && LexAtMost(id, last))
  }

  /** The generation documents are exactly the log, and no user document sits among them. */
  ghost predicate LogIs(docs: map<string, CouchDoc>, log: seq<Entry>) {
    && |log| < LIMIT
    && (forall g :: 0 < g <= |log| ==> HoldsGen(docs, log, g))
    && (forall id <- docs.Keys :: if docs[id].GenDoc? then 0 < docs[id].gen <= |log| && id == GenId(docs[id].gen)
                                  else !IsGenKey(id))
  }

  ghost predicate HoldsGen(docs: map<string, CouchDoc>, log: seq<Entry>, g: nat)
    requires 0 < g <= |log|
  {
    GenId(g) in docs && docs[GenId(g)] == GenDoc(g, log[g - 1].docId, log[g - 1].transId)
  }

  function GenIdsFrom(first: nat, last: nat): (ids: seq<string>)
    ensures |ids| == if first <= last then last - first + 1 else 0
    ensures forall i :: 0 <= i < |ids| ==> ids[i] == GenId(first + i)
  {
    if last < first then [] else if last == 0 then [GenId(0)] else GenIdsFrom(first, last - 1) + [GenId(last)]
  }

  lemma GenIdsAreIncreasing(first: nat, last: nat)
    requires last < LIMIT
    ensures Increasing(GenIdsFrom(first, last))
  {
    hide LexLess, GenIdsFrom;
    var ids := GenIdsFrom(first, last);
    forall i, j | 0 <= i < j < |ids| ensures LexLess(ids[i], ids[j]) {
      GenIdOrder(first + i, first + j);
    }
  }

  lemma GenKeysAreBetween(g: nat)
    requires g < LIMIT
    ensures IsGenKey(GenId(g))
    ensures forall s: nat :: s < LIMIT ==> (LexAtMost(GenId(s), GenId(g)) <==> s <= g)
  {
    hide LexLess, GenId;
    GenIdOrder(0, g);
    GenIdOrder(g, LIMIT - 1);
    forall s: nat | s < LIMIT ensures LexAtMost(GenId(s), GenId(g)) <==> s <= g {
      GenIdOrder(s, g);
    }
  }

  /** A document whose id does not start with "gen-" is never in the way. */
  lemma GenKeysHaveThePrefix(id: string)
    requires IsGenKey(id)
    ensures "gen-" <= id
  {
    hide LexLess, Decimal, ZFill;
    LexBetween("gen-", ZFill(Decimal(0), WIDTH), ZFill(Decimal(LIMIT - 1), WIDTH), id);
  }

  lemma LaterKeysAreGenKeys(start: nat, id: string)
    requires start < LIMIT && LexAtMost(GenId(start), id) && LexAtMost(id, GenId(LIMIT - 1))
    ensures IsGenKey(id)
  {
    hide LexLess, GenId;
    GenIdOrder(0, start);
    if start > 0 && GenId(start) != id {
      LexTransitive(GenId(0), GenId(start), id);
    }
  }

  ghost predicate InView(docs: map<string, CouchDoc>, start: nat, id: string) {
    id in docs && LexAtMost(GenId(start), id) && LexAtMost(id, GenId(LIMIT - 1))
  }

  lemma InViewExactlyWhen(docs: map<string, CouchDoc>, log: seq<Entry>, start: nat, id: string)
    requires LogIs(docs, log) && start < LIMIT
    ensures InView(docs, start, id) ==> id in docs && docs[id].GenDoc? && start <= docs[id].gen
    ensures id in docs && docs[id].GenDoc? && start <= docs[id].gen ==> InView(docs, start, id)
  {
    hide LexLess, GenId, LexAtMost;
    if InView(docs, start, id) {
      LaterKeysAreGenKeys(start, id);
    }
    if id in docs && docs[id].GenDoc? {
      GenKeysAreBetween(docs[id].gen);
    }
  }

  lemma RowsAreInView(docs: map<string, CouchDoc>, log: seq<Entry>, start: nat, id: string)
    requires LogIs(docs, log) && start < LIMIT
    ensures id in GenIdsFrom(if start == 0 then 1 else start, |log|) <==> InView(docs, start, id)
  {
    hide LogIs, GenId, GenIdsFrom, InView;
    InViewExactlyWhen(docs, log, start, id);
    var first := if start == 0 then 1 else start;
    var rows := GenIdsFrom(first, |log|);
    if id in rows {
      var i :| 0 <= i < |rows| && rows[i] == id;
      LogIsDense(docs, log, first + i);
    }
    if id in docs && docs[id].GenDoc? && start <= docs[id].gen {
      GenDocIsInLog(docs, log, id);
      assert rows[docs[id].gen - first] == id;
    }
  }

  lemma LogIsDense(docs: map<string, CouchDoc>, log: seq<Entry>, g: nat)
    requires LogIs(docs, log) && g <= |log|
    ensures g > 0 ==> HoldsGen(docs, log, g)
  {}

  lemma GenDocIsInLog(docs: map<string, CouchDoc>, log: seq<Entry>, id: string)
    requires LogIs(docs, log) && id in docs && docs[id].GenDoc?
    ensures 0 < docs[id].gen <= |log| && id == GenId(docs[id].gen)
  {}

  /** The view from a generation on shows exactly the rest of the log, in the order of the log. */
  lemma ViewShowsLog(docs: map<string, CouchDoc>, log: seq<Entry>, start: nat)
    requires LogIs(docs, log) && start < LIMIT
    ensures View(docs.Keys, GenId(start), GenId(LIMIT - 1)) == GenIdsFrom(if start == 0 then 1 else start, |log|)
  {
    hide GenId, GenIdsFrom, LexAtMost, Sorted, Increasing;
    var rows := GenIdsFrom(if start == 0 then 1 else start, |log|);
    var ids := set id <- docs.Keys | LexAtMost(GenId(start), id) && LexAtMost(id, GenId(LIMIT - 1));
    forall id ensures id in rows <==> id in ids {
      RowsAreInView(docs, log, start, id);
    }
    GenIdsAreIncreasing(if start == 0 then 1 else start, |log|);
    SortedIsUnique(ids, rows);
  }

  lemma LogGrows(docs: map<string, CouchDoc>, log: seq<Entry>, docId: string, doc: CouchDoc, transId: string)
    requires LogIs(docs, log) && |log| + 1 < LIMIT && !IsGenKey(docId) && doc.UserDoc?
    ensures var g := |log| + 1;
      && GenId(g) !in docs
      && LogIs(docs[docId := doc][GenId(g) := GenDoc(g, docId, transId)], log + [Entry(docId, transId)])
  {
    hide LexLess, GenId, IsGenKey;
    var g, longer := |log| + 1, log + [Entry(docId, transId)];
    var after := docs[docId := doc][GenId(g) := GenDoc(g, docId, transId)];
    GenKeysAreBetween(g);
    if GenId(g) in docs {
      GenIdOrder(docs[GenId(g)].gen, g);
    }
    forall h: nat | 0 < h <= |longer| ensures HoldsGen(after, longer, h) {
      GenIdOrder(h, g);
      GenKeysAreBetween(h);
      assert h < g ==> HoldsGen(docs, log, h);
    }
  }

  // ---------- the class ----------

  class CouchDatabase {
    var store: map<string, Stored>
    var syncDocs: map<string, SyncPoint>
    var batching: bool
    var batchGeneration: Option<SyncPoint>
    var batchDocs: map<string, Draft>
    var batchedIds: set<string>
    ghost var log: seq<Entry>

    constructor ()
      ensures Valid() && Docs() == map[] && log == [] && syncDocs == map[] && !batching
    {
      store, syncDocs, batching, batchGeneration, batchDocs, batchedIds := map[], map[], false, None, map[], {};
      log := [];
      new;
      assert |log| < LIMIT;
    }

    /** The documents as they will be once the batch is stored. */
    function Docs(): map<string, CouchDoc>
      reads this`store, this`batchDocs
    {
      Effective(store, batchDocs)
    }

    ghost predicate Valid()
      reads this
    {
      && LogIs(Docs(), log)
      && (if batching then batchGeneration == Some(Tip(log)) else batchGeneration == None && batchDocs == map[])
    }

    /** A read finds the document's latest version: it is pending, it was there before, or it is new. */
    predicate Sees(docId: string)
      reads this
    {
      batching ==> docId in batchDocs || docId in batchedIds || docId !in store
    }

    // ---------- generations ----------

    method NewestGenDoc() returns (p: SyncPoint)
      requires LogIs(Effective(store, map[]), log)
      ensures p == Tip(log)
    {
      hide LogIs, Effective, Sorted, GenId, LexLess;
      ghost var docs := Effective(store, map[]);
      assert docs.Keys == store.Keys by { StoreKeys(store); }
      ViewShowsLog(docs, log, 0);
      var rows := View(store.Keys, GenId(0), GenId(LIMIT - 1));
      if rows == [] {
        return START;
      }
      LogIsDense(docs, log, |log|);
      StoreKeys(store);
      var doc := store[rows[|rows| - 1]].doc;
      return SyncPoint(doc.gen, doc.transId);
    }

    method GetGenerationInfo() returns (p: SyncPoint)
      requires Valid()
      ensures p == Tip(log)
    {
      if batching && batchGeneration.Some? {
        return batchGeneration.value;
      }
      p := NewestGenDoc();
    }

    /** Goes through the tail of the log from its end, keeping the first row seen of each document. */
    method WhatsChanged(oldGeneration: nat) returns (newest: SyncPoint, changes: seq<Change>)
      requires Valid() && !batching && oldGeneration + 1 < LIMIT
      ensures newest == Tip(log) && changes == Changes(log, oldGeneration)
    {
      hide Effective, LogIs, View, GenId, Collected, Reverse, Changes;
      newest := GetGenerationInfo();
      StoreKeys(store);
      ghost var docs := Effective(store, map[]);
      ViewShowsLog(docs, log, oldGeneration + 1);
      var tail := View(store.Keys, GenId(oldGeneration + 1), GenId(LIMIT - 1));
      var seen: set<string> := {};
      var rows: seq<Change> := [];
      var i := |tail|;
      ghost var g: nat := |log|;
      NothingCollected(log, oldGeneration);
      while 0 < i
        invariant i <= |tail| && g <= |log|
        invariant i == if oldGeneration < g then g - oldGeneration else 0
        invariant Collected(log, oldGeneration, g, seen, rows)
      {
        LogIsDense(docs, log, g);
        CollectRow(log, oldGeneration, g, seen, rows);
        i := i - 1;
        var doc := store[tail[i]].doc;
        if doc.docId !in seen {
          rows := rows + [Change(doc.docId, doc.gen, doc.transId)];
          seen := seen + {doc.docId};
        }
        g := g - 1;
      }
      AllCollected(log, oldGeneration, g, seen, rows);
      changes := Reverse(rows);
    }

    // ---------- reading and saving ----------

    /** One bulk update with everything that is pending. */
    method PerformBatch() returns (ok: bool)
      modifies this`store, this`batchDocs
      ensures store == Applied(old(store), old(batchDocs))
      ensures ok <==> AllAccepted(old(store), old(batchDocs))
      ensures batchDocs == if ok then map[] else old(batchDocs)
      ensures ok <==> forall id <- old(batchDocs).Keys :: IsBase(old(batchDocs)[id].baseRev, old(store), id)
      ensures forall id ::
        if id in old(batchDocs) && IsBase(old(batchDocs)[id].baseRev, old(store), id) then
          && id in store && store[id].doc == old(batchDocs)[id].doc
          && (id in old(store) ==> store[id].couchRev > old(store)[id].couchRev)
        else if id in old(store) then id in store && store[id] == old(store)[id]
        else id !in store
    {
      ok := AllAccepted(store, batchDocs);
      store := Applied(store, batchDocs);
      if ok {
        batchDocs := map[];
      }
    }

    /** Reading a document that is pending stores the whole batch first. */
    method GetDoc(docId: string, checkForConflicts: bool) returns (r: Result<Option<Fetched>>)
      requires Valid()
      modifies this`store, this`batchDocs, this`batchedIds
      ensures old(docId !in batchDocs) ==> r.Ok? && store == old(store) && batchDocs == old(batchDocs)
      ensures old(docId !in batchDocs) ==> batchedIds == old(batchedIds)
      ensures old(AllAccepted(store, batchDocs)) ==> r.Ok? && AllAccepted(store, batchDocs)
      ensures r.Ok? ==> Valid() && Docs() == old(Docs())
      ensures old(docId in batchDocs && !AllAccepted(store, batchDocs)) ==> r == Err(RevisionConflict)
      ensures old(docId !in batchDocs && !Sees(docId)) ==> r == Ok(None)
      ensures old(docId !in batchDocs) && !checkForConflicts && r.value.Some? ==> r.value.value.conflicts == None
      ensures r.Ok? && old(Sees(docId)) ==> docId !in batchDocs && Sees(docId) && IsRead(r.value, docId, checkForConflicts)
    {
      hide LogIs;
      if docId in batchDocs {
        var pending := batchDocs[docId];
        StoringABatchIfAccepted(store, batchDocs);
        var ok := PerformBatch();
        if !ok {
          return Err(RevisionConflict);
        }
        assert Accepts(old(store), docId, pending.baseRev);
        batchedIds := batchedIds + {docId};
        var d := pending.doc;
        if d.UserDoc? {
          return Ok(Some(Fetched(d.version, Attached(d.conflicts), store[docId].couchRev)));
        }
      }
      if batching && docId !in batchedIds {
        return Ok(None);
      }
      if docId !in store {
        return Ok(None);
      }
      var s := store[docId];
      assert Docs()[docId] == s.doc;
      if s.doc.GenDoc? {
        return Ok(None);
      }
      return Ok(Some(Fetched(s.doc.version, if checkForConflicts then Attached(s.doc.conflicts) else None, s.couchRev)));
    }

    /** The document as the database has it, conflicts included if they are asked for. */
    ghost predicate IsRead(f: Option<Fetched>, docId: string, checkForConflicts: bool)
      reads this`store, this`batchDocs
    {
      if docId !in Docs() then f == None && Accepts(store, docId, None)
      else if Docs()[docId].GenDoc? then f == None
      else
        && f.Some?
        && f.value.version == Docs()[docId].version
        && (checkForConflicts ==>
             f.value.conflicts == if Docs()[docId].conflicts == [] then None else Some(Docs()[docId].conflicts))
        && Accepts(store, docId, Some(f.value.couchRev))
    }

    /** What the database is after saving a document: one more generation. */
    ghost predicate HasSaved(before: map<string, CouchDoc>, was: seq<Entry>, docId: string, doc: CouchDoc, transId: string)
      reads this
    {
      && log == was + [Entry(docId, transId)]
      && Docs() == before[docId := doc][GenId(|log|) := GenDoc(|log|, docId, transId)]
    }

    /** Outside a batch: the document first, then a new generation for it. */
    method PutNow(docId: string, doc: CouchDoc, transId: string)
      requires Valid() && !batching && !IsGenKey(docId) && |log| + 1 < LIMIT && doc.UserDoc?
      modifies this`store, this`log
      ensures Valid() && HasSaved(old(Docs()), old(log), docId, doc, transId)
    {
      hide GenId, LogIs, IsGenKey, Effective;
      LogGrows(Docs(), log, docId, doc, transId);
      var last := GetGenerationInfo();
      var gen := last.gen + 1;
      var genDoc := GenDoc(gen, docId, transId);
      SavingShows(store, docId, Saved(store, docId, doc));
      store := store[docId := Saved(store, docId, doc)];
      SavingShows(store, GenId(gen), Saved(store, GenId(gen), genDoc));
      store := store[GenId(gen) := Saved(store, GenId(gen), genDoc)];
      log := log + [Entry(docId, transId)];
    }

    /** Inside a batch: both documents are pending, and the generation is counted here. */
    method Stage(baseRev: Option<nat>, docId: string, doc: CouchDoc, transId: string)
      requires Valid() && batching && !IsGenKey(docId) && |log| + 1 < LIMIT && doc.UserDoc?
      modifies this`batchDocs, this`batchGeneration, this`log
      ensures Valid() && HasSaved(old(Docs()), old(log), docId, doc, transId)
      ensures batchDocs.Keys == old(batchDocs.Keys) + {docId, GenId(|log|)}
      ensures old(AllAccepted(store, batchDocs)) && Accepts(store, docId, baseRev) ==> AllAccepted(store, batchDocs)
    {
      hide GenId, LogIs, IsGenKey, Effective, AllAccepted;
      LogGrows(Docs(), log, docId, doc, transId);
      var last := GetGenerationInfo();
      var gen := last.gen + 1;
      var genDoc := GenDoc(gen, docId, transId);
      NewIdIsAccepted(store, batchDocs, GenId(gen));
      DraftingShows(store, batchDocs, docId, Draft(baseRev, doc));
      batchDocs := batchDocs[docId := Draft(baseRev, doc)];
      DraftingShows(store, batchDocs, GenId(gen), Draft(None, genDoc));
      batchDocs := batchDocs[GenId(gen) := Draft(None, genDoc)];
      batchGeneration := Some(SyncPoint(batchGeneration.value.gen + 1, transId));
      log := log + [Entry(docId, transId)];
    }

    /** In a batch, a tombstone's conflicts are looked for behind a content that is not there. */
    method SaveDocument(baseRev: Option<nat>, docId: string, v: Version, conflicts: seq<Version>, transId: string)
      returns (r: Result<()>)
      requires Valid() && !IsGenKey(docId) && |log| + 1 < LIMIT
      modifies this`store, this`batchDocs, this`batchGeneration, this`log
      ensures Valid()
      ensures r == if batching && v.content.None? && conflicts != [] then Err(MissingAttachment)
        else if !batching && !Accepts(old(store), docId, baseRev) then Err(RevisionConflict)
        else Ok(())
      ensures if r.Ok? then HasSaved(old(Docs()), old(log), docId, UserDoc(v, conflicts), transId)
        else Docs() == old(Docs()) && log == old(log) && batchDocs == old(batchDocs)
      ensures batching || r.Err? ==> store == old(store)
      ensures batching && r.Ok? ==> batchDocs.Keys == old(batchDocs.Keys) + {docId, GenId(|log|)}
      ensures old(AllAccepted(store, batchDocs)) && Accepts(old(store), docId, baseRev) ==> AllAccepted(store, batchDocs)
    {
      hide GenId, LogIs, IsGenKey, Effective;
      if !batching {
        if !Accepts(store, docId, baseRev) {
          return Err(RevisionConflict);
        }
        PutNow(docId, UserDoc(v, conflicts), transId);
      } else {
        if v.content.None? && conflicts != [] {
          return Err(MissingAttachment);
        }
        Stage(baseRev, docId, UserDoc(v, conflicts), transId);
      }
      return Ok(());
    }

    // ---------- batches ----------

    method BatchStart()
      requires Valid() && !batching
      modifies this`batching, this`batchGeneration, this`batchedIds
      ensures Valid() && batching && batchedIds == store.Keys
    {
      batching := true;
      var info := NewestGenDoc();
      batchGeneration := Some(info);
      batchedIds := store.Keys;
    }

    /** Everything pending is stored, or a conflict is reported for what was changed meanwhile. */
    method BatchEnd() returns (r: Result<()>)
      requires Valid() && batching
      modifies this`batching, this`batchGeneration, this`store, this`batchDocs
      ensures !batching && store == Applied(old(store), old(batchDocs))
      ensures r == if old(AllAccepted(store, batchDocs)) then Ok(()) else Err(RevisionConflict)
      ensures r.Ok? ==> Valid() && Docs() == old(Docs())
    {
      batching := false;
      batchGeneration := None;
      StoringABatchIfAccepted(store, batchDocs);
      var ok := PerformBatch();
      return if ok then Ok(()) else Err(RevisionConflict);
    }

    // ---------- what is known of other replicas ----------

    function GetReplicaGenAndTransId(otherUid: string): SyncPoint
      reads this`syncDocs
    {
      if otherUid in syncDocs then syncDocs[otherUid] else SyncPoint(0, "")
    }

    method SetReplicaGenAndTransId(otherUid: string, p: SyncPoint)
      requires Valid()
      modifies this`syncDocs
      ensures Valid() && syncDocs == old(syncDocs)[otherUid := p]
    {
      syncDocs := syncDocs[otherUid := p];
    }
  }

  function Attached(conflicts: seq<Version>): Option<seq<Version>> {
    if conflicts == [] then None else Some(conflicts)
  }

  lemma StoreKeys(store: map<string, Stored>)
    ensures Effective(store, map[]).Keys == store.Keys
    ensures forall id <- store.Keys :: Effective(store, map[])[id] == store[id].doc
  {}

  lemma NewIdIsAccepted(store: map<string, Stored>, batch: map<string, Draft>, id: string)
    ensures id !in Effective(store, batch) ==> Accepts(store, id, None)
  {}

  lemma StoringABatchIfAccepted(store: map<string, Stored>, batch: map<string, Draft>)
    ensures AllAccepted(store, batch) ==> Effective(Applied(store, batch), map[]) == Effective(store, batch)
  {
    if AllAccepted(store, batch) {
      StoringABatchShowsIt(store, batch);
    }
  }
}
