/** The server's side of an upload: staging, inserting in batches, and what has been seen. */
module ServerSync {
  import opened Backend
  import opened ChangeLog
  import opened Couch
  import opened Documents
  import opened GenIds
  import opened Links
  import opened Pruning
  import opened Replicas
  import opened VectorClocks
  import opened Wrappers

  /** One uploaded document, with its generation at the source. */
  datatype Incoming = Incoming(docId: string, version: Version, point: SyncPoint)

  /** The replica after some insertions, and the documents that will not be sent back. */
  datatype Received = Received(replica: Replica, seen: seq<(string, nat)>)

  // ---------- one after the other ----------

  function InsertOne(acc: Received, source: string, e: Incoming): Result<Received> {
    var taken := PutDocIfNewer(acc.replica, e.docId, e.version, false, source, e.point);
    if taken.Err? then Err(taken.error)
    else
      var after := taken.value.replica;
      Ok(Received(after, if Settles(taken.value.outcome) then acc.seen + [(e.docId, |after.log|)] else acc.seen))
  }

  /** Every document is saved, and the source's generation recorded, before the next one. */
  function InsertAll(r: Replica, source: string, entries: seq<Incoming>): Result<Received> {
    if entries == [] then Ok(Received(r, []))
    else
      var before := InsertAll(r, source, entries[..|entries| - 1]);
      if before.Err? then before else InsertOne(before.value, source, entries[|entries| - 1])
  }

  /** No document is stored that has conflicts and no content. */
  predicate Fits(r: Replica, source: string, entries: seq<Incoming>) {
    if entries == [] then true
    else
      var init, e := entries[..|entries| - 1], entries[|entries| - 1];
      var before, after := InsertAll(r, source, init), InsertAll(r, source, entries);
      && Fits(r, source, init)
      && (after.Ok? ==> !StoresBareConflicts(before.value.replica, after.value.replica, e.docId))
  }

  lemma InsertAllStep(r: Replica, source: string, entries: seq<Incoming>, k: nat)
    requires k < |entries|
    ensures var before, after := InsertAll(r, source, entries[..k]), InsertAll(r, source, entries[..k + 1]);
      && after == (if before.Err? then before else InsertOne(before.value, source, entries[k]))
      && (Fits(r, source, entries[..k + 1]) <==>
           && Fits(r, source, entries[..k])
           && (after.Ok? ==> !StoresBareConflicts(before.value.replica, after.value.replica, entries[k].docId)))
  {
    assert entries[..k + 1][..k] == entries[..k];
  }

  /** If the next document is taken in and logged, it has content or no conflicts. */
  ghost predicate StepFits(r: Replica, source: string, entries: seq<Incoming>, k: nat)
    requires k < |entries|
  {
    var before, after, d := InsertAll(r, source, entries[..k]), InsertAll(r, source, entries[..k + 1]), entries[k].docId;
    after.Ok? && before.Ok? && |after.value.replica.log| > |before.value.replica.log| && d in after.value.replica.docs ==>
      || after.value.replica.docs[d].content != None
      || d !in after.value.replica.conflicts
      || after.value.replica.conflicts[d] == []
  }

  /** Whether a batch can take it all, told step by step. */
  lemma {:induction false} FitsExactly(r: Replica, source: string, entries: seq<Incoming>)
    ensures Fits(r, source, entries) <==> forall k :: 0 <= k < |entries| ==> StepFits(r, source, entries, k)
  {
    NothingInserted(r, source, entries);
    hide InsertAll, Fits, StepFits;
    if entries != [] {
      var n := |entries| - 1;
      var init := entries[..n];
      FitsExactly(r, source, init);
      LastFits(r, source, entries);
      forall k | 0 <= k < n ensures StepFits(r, source, init, k) <==> StepFits(r, source, entries, k) {
        EarlierFits(r, source, entries, k);
      }
    }
  }

  lemma EarlierFits(r: Replica, source: string, entries: seq<Incoming>, k: nat)
    requires k < |entries| - 1
    ensures StepFits(r, source, entries[..|entries| - 1], k) <==> StepFits(r, source, entries, k)
  {
    hide InsertAll;
    var init := entries[..|entries| - 1];
    assert init[..k] == entries[..k] && init[..k + 1] == entries[..k + 1];
  }

  lemma LastFits(r: Replica, source: string, entries: seq<Incoming>)
    requires entries != []
    ensures var n := |entries| - 1;
      Fits(r, source, entries) <==> Fits(r, source, entries[..n]) && StepFits(r, source, entries, n)
  {
    var n := |entries| - 1;
    InsertAllStep(r, source, entries, n);
    assert entries[..n + 1] == entries;
    hide InsertAll, Fits, InsertOne;
  }

  lemma {:induction false} FailureStays(r: Replica, source: string, entries: seq<Incoming>, k: nat)
    requires k <= |entries|
    ensures InsertAll(r, source, entries[..k]).Err? ==> InsertAll(r, source, entries).Err?
    ensures !Fits(r, source, entries[..k]) ==> !Fits(r, source, entries)
    decreases |entries| - k
  {
    hide InsertOne, StoresBareConflicts;
    if k == |entries| {
      assert entries[..k] == entries;
    } else {
      InsertAllStep(r, source, entries, k);
      FailureStays(r, source, entries, k + 1);
    }
  }

  function After(first: Received, second: Result<Received>): Result<Received> {
    if second.Err? then second else Ok(Received(second.value.replica, first.seen + second.value.seen))
  }

  lemma InsertOneAfter(first: Received, second: Received, source: string, e: Incoming)
    ensures InsertOne(After(first, Ok(second)).value, source, e) == After(first, InsertOne(second, source, e))
  {
    var taken := PutDocIfNewer(second.replica, e.docId, e.version, false, source, e.point);
    hide PutDocIfNewer;
    if taken.Ok? {
      var more := [(e.docId, |taken.value.replica.log|)];
      assert (first.seen + second.seen) + more == first.seen + (second.seen + more);
    }
  }

  /** Inserting in two goes is inserting in one. */
  lemma {:induction false} InsertAllAppend(r: Replica, source: string, a: seq<Incoming>, b: seq<Incoming>)
    ensures var first := InsertAll(r, source, a);
      InsertAll(r, source, a + b) ==
        if first.Err? then first else After(first.value, InsertAll(first.value.replica, source, b))
  {
    hide InsertOne;
    var first := InsertAll(r, source, a);
    if b == [] {
      assert a + b == a;
      assert first.Ok? ==> first.value.seen + [] == first.value.seen;
    } else {
      var init, e := b[..|b| - 1], b[|b| - 1];
      InsertAllAppend(r, source, a, init);
      assert (a + b)[..|a + b| - 1] == a + init;
      if first.Ok? && InsertAll(first.value.replica, source, init).Ok? {
        InsertOneAfter(first.value, InsertAll(first.value.replica, source, init).value, source, e);
      }
    }
  }

  // ---------- the same without recording in between ----------

  /** What is known of other replicas has no part in how a document is merged. */
  lemma MergeIgnoresKnown(r: Replica, known: map<string, SyncPoint>, docId: string, v: Version)
    ensures var plain, other := Merge(r, docId, v, false), Merge(r.(known := known), docId, v, false);
      if plain.Err? then other == plain
      else other == Ok(Taken(plain.value.outcome, plain.value.replica.(known := known)))
  {
    hide Newer, Join, Increment, Prune;
  }

  /** The entries of one upload, as the source lists them: every document once, generations ascending. */
  ghost predicate IsUpload(entries: seq<Incoming>) {
    && (forall i, j :: 0 <= i < j < |entries| ==> entries[i].docId != entries[j].docId)
    && (forall i, j :: 0 <= i < j < |entries| ==> entries[i].point.gen < entries[j].point.gen)
    && (forall e <- entries :: !IsGenKey(e.docId))
  }

  /** How far the replica that records as it goes has got, and that it started in good order. */
  ghost predicate RecordedUpTo(r: Replica, source: string, entries: seq<Incoming>, k: nat)
    requires k <= |entries|
  {
    var so := InsertAll(r, source, entries[..k]);
    && so.Ok?
    && |so.value.replica.log| <= |r.log| + k
    && so.value.replica.known == (if k == 0 then r.known else r.known[source := entries[k - 1].point])
    && (k > 0 ==> KnownOf(r, source).gen <= entries[0].point.gen)
  }

  lemma MergeFrame(r: Replica, docId: string, v: Version)
    ensures var m := Merge(r, docId, v, false);
      m.Ok? ==>
        && m.value.replica.known == r.known && m.value.replica.uid == r.uid
        && |r.log| <= |m.value.replica.log| <= |r.log| + 1
  {
    hide Newer, Join, Increment, Prune;
  }

  lemma UploadAscends(entries: seq<Incoming>, k: nat)
    requires IsUpload(entries) && k < |entries|
    ensures k > 0 ==> entries[0].point.gen <= entries[k - 1].point.gen < entries[k].point.gen
  {}

  /** Without the recordings in between, the next document is answered just the same. */
  lemma NextIsAnsweredAlike(r: Replica, source: string, entries: seq<Incoming>, k: nat)
    requires IsUpload(entries) && k < |entries| && RecordedUpTo(r, source, entries, k)
    ensures var so, e := InsertAll(r, source, entries[..k]).value, entries[k];
      var pending, there := so.replica.(known := r.known), InsertAll(r, source, entries[..k + 1]);
      var here := Answer(pending, e.docId, e.version, source, e.point);
      if here.Err? then there == Err(here.error)
      else
        && RecordedUpTo(r, source, entries, k + 1)
        && here.value.replica == there.value.replica.(known := r.known)
        && there.value.seen == so.seen +
             if Settles(here.value.outcome) then [(e.docId, |here.value.replica.log|)] else []
  {
    hide Merge, InsertAll, IsUpload, Fits;
    var so, e := InsertAll(r, source, entries[..k]).value, entries[k];
    InsertAllStep(r, source, entries, k);
    MergeIgnoresKnown(so.replica, r.known, e.docId, e.version);
    MergeFrame(so.replica, e.docId, e.version);
    UploadAscends(entries, k);
    assert ValidateSource(so.replica, source, e.point) == ValidateSource(so.replica.(known := r.known), source, e.point);
  }

  /** Recording at once is what one-by-one insertion does. */
  lemma AnswerAndRecord(acc: Received, source: string, e: Incoming)
    ensures var here := Answer(acc.replica, e.docId, e.version, source, e.point);
      InsertOne(acc, source, e) ==
        if here.Err? then Err(here.error)
        else Ok(Received(SetKnown(here.value.replica, source, e.point),
                         acc.seen + if Settles(here.value.outcome) then [(e.docId, |here.value.replica.log|)] else []))
  {
    hide Merge;
    assert acc.seen + [] == acc.seen;
  }

  lemma StoredBareAlike(before: Replica, after: Replica, known: map<string, SyncPoint>, docId: string)
    ensures StoresBareConflicts(before.(known := known), after.(known := known), docId) ==
      StoresBareConflicts(before, after, docId)
  {}

  lemma UploadIdIsFree(entries: seq<Incoming>, i: nat)
    requires IsUpload(entries) && i < |entries|
    ensures !IsGenKey(entries[i].docId)
  {}

  /** A later document of the upload is neither this one nor a generation document. */
  lemma LaterIsAnother(entries: seq<Incoming>, i: nat, j: nat, g: nat)
    requires IsUpload(entries) && i < j < |entries| && g < LIMIT
    ensures entries[j].docId != entries[i].docId && entries[j].docId != GenId(g)
  {
    GenKeysAreBetween(g);
    hide IsGenKey, GenId;
    assert !IsGenKey(entries[j].docId);
  }

  // ---------- the class ----------

  /** What was computed for this session to return. */
  datatype Found = Found(point: SyncPoint, changes: seq<Change>)

  /** The noted pairs as a dictionary: a later one replaces an earlier one of the same document. */
  function Dict(pairs: seq<(string, nat)>): map<string, nat> {
    if pairs == [] then map[]
    else
      var last := pairs[|pairs| - 1];
      Dict(pairs[..|pairs| - 1])[last.0 := last.1]
  }

  class SyncExchange {
    const db: SoledadBackend
    const sourceReplicaUid: string
    const lastKnownGeneration: nat
    var seenIds: seq<(string, nat)>
    var found: Option<Found>
    var changesToReturn: Option<seq<Change>>
    var newPoint: SyncPoint

    constructor (db: SoledadBackend, sourceReplicaUid: string, lastKnownGeneration: nat)
      ensures this.db == db && this.sourceReplicaUid == sourceReplicaUid
      ensures this.lastKnownGeneration == lastKnownGeneration
      ensures seenIds == [] && found == None && changesToReturn == None
    {
      this.db, this.sourceReplicaUid, this.lastKnownGeneration := db, sourceReplicaUid, lastKnownGeneration;
      seenIds, found, changesToReturn, newPoint := [], None, None, START;
    }

    /**
     * The changes are computed once per session. If they were computed before, only the generation
     * and their number are known: nothing is set to be returned.
     */
    method FindChangesToReturn() returns (newGen: nat, numberOfChanges: nat)
      requires db.Valid() && !db.batching && lastKnownGeneration + 1 < LIMIT
      modifies this`found, this`changesToReturn, this`newPoint
      ensures newGen == newPoint.gen && found.Some?
      ensures old(found).None? ==> var cs := ToReturn(Changes(db.database.log, lastKnownGeneration), Dict(seenIds));
        && found == Some(Found(Tip(db.database.log), cs))
        && changesToReturn == Some(cs)
      ensures old(found).Some? ==> found == old(found) && changesToReturn == old(changesToReturn)
      ensures newPoint == found.value.point && numberOfChanges == |found.value.changes|
    {
      hide LogIs, Effective, AllAccepted, Dict, Changes, Pow10;
      if found.None? {
        var point, changes := db.database.WhatsChanged(lastKnownGeneration);
        var seen := Dict(seenIds);
        var kept := [];
        for i := 0 to |changes|
          invariant kept == ToReturn(changes[..i], seen)
        {
          var c := changes[i];
          assert changes[..i + 1][..i] == changes[..i];
          if c.docId !in seen || seen[c.docId] < c.gen {
            kept := kept + [c];
          }
        }
        assert changes[..|changes|] == changes;
        changesToReturn := Some(kept);
        found := Some(Found(point, kept));
      }
      newPoint := found.value.point;
      return newPoint.gen, |found.value.changes|;
    }

    method InsertDocFromSource(e: Incoming) returns (r: Result<()>)
      requires db.Valid() && db.MayWrite(e.docId)
      modifies this`seenIds, db`afterBatch, db.database
      ensures db.Valid() && db.database.batching == old(db.database.batching)
      ensures var before, spec := old(db.Model()), Answer(old(db.Model()), e.docId, e.version, sourceReplicaUid, e.point);
        if spec.Err? then r == Err(spec.error) && db.Model() == before
        else if db.batching && StoresBareConflicts(before, spec.value.replica, e.docId) then
          r == Err(MissingAttachment) && db.Model() == before
        else
          && r.Ok?
          && db.Model() == (if db.batching then spec.value.replica
                            else SetKnown(spec.value.replica, sourceReplicaUid, e.point))
          && seenIds == old(seenIds) +
               if spec.value.outcome.Inserted? || spec.value.outcome.Converged?
               then [(e.docId, |spec.value.replica.log|)] else []
      ensures db.afterBatch == if db.batching && r.Ok? then Some((sourceReplicaUid, e.point)) else old(db.afterBatch)
      ensures r.Err? ==> seenIds == old(seenIds)
      ensures db.batching && old(e.docId !in db.database.batchDocs) ==>
        && db.database.store == old(db.database.store) && db.database.batchedIds == old(db.database.batchedIds)
        && db.database.batchDocs.Keys <= old(db.database.batchDocs.Keys) + {e.docId, GenId(|db.database.log|)}
    {
      hide SoledadBackend.Valid, Answer, StoresBareConflicts, GenId, SoledadBackend.MayWrite;
      var doc := new ServerDocument(e.docId, Some(e.version.rev), e.version.content);
      var state, atGen := db.PutDocIfNewer(doc, false, sourceReplicaUid, e.point);
      if state.Err? {
        return Err(state.error);
      }
      if state.value.Inserted? || state.value.Converged? {
        seenIds := seenIds + [(e.docId, atGen)];
      }
      return Ok(());
    }

    /** What has been received so far is what one-by-one insertion gives, up to what is recorded at the end. */
    ghost predicate InStep(r: Replica, entries: seq<Incoming>, k: nat, seenBefore: seq<(string, nat)>)
      requires k <= |entries|
      reads this, db, db.database
    {
      var so := InsertAll(r, sourceReplicaUid, entries[..k]);
      && so.Ok?
      && db.Model() == (if db.batching then so.value.replica.(known := r.known) else so.value.replica)
      && seenIds == seenBefore + so.value.seen
      && (db.batching ==>
           && Fits(r, sourceReplicaUid, entries[..k])
           && db.afterBatch == if k == 0 then None else Some((sourceReplicaUid, entries[k - 1].point)))
    }

    /** One-by-one insertion raises nothing, and a batch is asked to store no tombstone with conflicts. */
    predicate Takes(r: Replica, entries: seq<Incoming>) {
      InsertAll(r, sourceReplicaUid, entries).Ok? && (db.batchSupport ==> Fits(r, sourceReplicaUid, entries))
    }

    /** The documents still to come are not pending and can be read. */
    ghost predicate Awaits(entries: seq<Incoming>, k: nat)
      reads db, db.database
    {
      forall j :: k <= j < |entries| ==>
        entries[j].docId !in db.database.batchDocs && db.database.Sees(entries[j].docId)
    }

    method InsertNext(entries: seq<Incoming>, i: nat, ghost start: Replica, ghost seenBefore: seq<(string, nat)>)
      returns (r: Result<()>)
      requires db.Valid() && IsUpload(entries) && i < |entries| && |start.log| + |entries| < LIMIT
      requires InStep(start, entries, i, seenBefore) && RecordedUpTo(start, sourceReplicaUid, entries, i)
      requires db.batching ==> Awaits(entries, i)
      modifies this`seenIds, db`afterBatch, db.database
      ensures db.Valid() && db.database.batching == old(db.database.batching)
      ensures r.Ok? ==> InStep(start, entries, i + 1, seenBefore) && RecordedUpTo(start, sourceReplicaUid, entries, i + 1)
      ensures r.Ok? && db.batching ==> Awaits(entries, i + 1)
      ensures r.Err? ==> InStep(start, entries, i, seenBefore)
      ensures r.Err? && InsertAll(start, sourceReplicaUid, entries[..i + 1]).Ok? ==>
        db.batching && !Fits(start, sourceReplicaUid, entries[..i + 1])
      ensures db.batching ==> db.database.store == old(db.database.store)
    {
      hide SoledadBackend.Valid, IsGenKey, GenId, IsUpload, Answer, StoresBareConflicts, InsertAll, Fits, InsertOne;
      hide UserDocs, UserConflicts, Pow10;
      ghost var so, e, source := InsertAll(start, sourceReplicaUid, entries[..i]).value, entries[i], sourceReplicaUid;
      UploadIdIsFree(entries, i);
      db.BatchesTogether();
      InsertAllStep(start, source, entries, i);
      NextIsAnsweredAlike(start, source, entries, i);
      AnswerAndRecord(so, source, e);
      ghost var there := InsertAll(start, source, entries[..i + 1]);
      if there.Ok? {
        StoredBareAlike(so.replica, there.value.replica, start.known, e.docId);
      }
      r := InsertDocFromSource(entries[i]);
      forall j | i < j < |entries| && |db.database.log| < LIMIT
        ensures entries[j].docId != e.docId && entries[j].docId != GenId(|db.database.log|)
      {
        LaterIsAnother(entries, i, j, |db.database.log|);
      }
      assert seenBefore + so.seen + [] == seenBefore + so.seen;
    }

    /**
     * A whole upload at once. With batches or without, what is stored, recorded and seen is what
     * one-by-one insertion gives. A batch is all or nothing, and it takes everything exactly when
     * one-by-one insertion does and no tombstone with conflicts is stored.
     */
    method BatchedInsertFromSource(entries: seq<Incoming>) returns (r: Result<()>)
      requires db.Valid() && !db.batching && IsUpload(entries)
      requires |db.database.log| + |entries| < LIMIT
      modifies this`seenIds, db`batching, db`afterBatch, db.database
      ensures var spec := InsertAll(old(db.Model()), sourceReplicaUid, entries);
        && (r.Ok? <==> Takes(old(db.Model()), entries))
        && (r.Ok? ==>
             && db.Valid() && !db.batching
             && db.Model() == spec.value.replica
             && seenIds == old(seenIds) + spec.value.seen)
      ensures r.Err? && db.batchSupport ==>
        db.database.store == old(db.database.store) && db.database.syncDocs == old(db.database.syncDocs)
      ensures r.Err? && !db.batchSupport ==>
        exists k :: 0 <= k < |entries| && InStep(old(db.Model()), entries, k, old(seenIds))
    {
      hide SoledadBackend.Valid, SoledadBackend.Consistent, AllAccepted, Accepts, IsGenKey, IsUpload, InsertAll, Fits;
      hide UserDocs, UserConflicts, Effective, Pow10;
      db.BatchesTogether();
      ghost var start, seenBefore, source := db.Model(), seenIds, sourceReplicaUid;
      NothingInserted(start, source, entries);
      if entries == [] {
        return Ok(());
      }
      db.BatchStart();
      for i := 0 to |entries|
        invariant db.Valid() && db.batching == db.batchSupport
        invariant InStep(start, entries, i, seenBefore) && RecordedUpTo(start, source, entries, i)
        invariant db.batching ==> Awaits(entries, i)
        invariant db.batching ==> db.database.store == old(db.database.store)
      {
        r := InsertNext(entries, i, start, seenBefore);
        if r.Err? {
          FailureStays(start, source, entries, i + 1);
          return r;
        }
      }
      assert entries[..|entries|] == entries;
      db.BatchesTogether();
      r := db.BatchEnd();
    }
  }

  lemma NothingInserted(r: Replica, source: string, entries: seq<Incoming>)
    ensures InsertAll(r, source, []) == Ok(Received(r, [])) && entries[..0] == []
    ensures Fits(r, source, []) && RecordedUpTo(r, source, entries, 0)
  {}

  lemma {:induction false} InsertAllGrows(r: Replica, source: string, entries: seq<Incoming>)
    ensures var all := InsertAll(r, source, entries);
      all.Ok? ==> |all.value.replica.log| <= |r.log| + |entries|
  {
    if entries != [] {
      var init, e := entries[..|entries| - 1], entries[|entries| - 1];
      InsertAllGrows(r, source, init);
      var before := InsertAll(r, source, init);
      if before.Ok? {
        hide Merge;
        MergeFrame(before.value.replica, e.docId, e.version);
      }
    }
  }

  lemma RestIsUpload(a: seq<Incoming>, b: seq<Incoming>)
    requires IsUpload(a + b)
    ensures IsUpload(b)
  {
    hide IsGenKey;
    var all := a + b;
    forall i, j | 0 <= i < j < |b| ensures b[i].docId != b[j].docId && b[i].point.gen < b[j].point.gen {
      assert all[|a| + i] == b[i] && all[|a| + j] == b[j];
    }
    assert forall e <- b :: e in all;
  }

  // ---------- staging ----------

  /** Staged content beyond this size is inserted without waiting for the last document. */
  const ENTRY_CACHE_SIZE: nat := 8192 * 1024

  /** One upload request: documents are staged and inserted in batches as they come in. */
  class SyncResource {
    const syncExch: SyncExchange
    var staging: seq<Incoming>
    var stagingSize: nat
    ghost const start: Replica
    ghost var inserted: seq<Incoming>

    constructor (syncExch: SyncExchange)
      requires syncExch.db.Valid() && !syncExch.db.batching && syncExch.seenIds == []
      requires |syncExch.db.database.log| < LIMIT
      ensures this.syncExch == syncExch && start == syncExch.db.Model()
      ensures staging == [] && inserted == [] && Valid()
    {
      this.syncExch := syncExch;
      staging, stagingSize := [], 0;
      start, inserted := syncExch.db.Model(), [];
      new;
      NothingInserted(start, syncExch.sourceReplicaUid, []);
    }

    /** However the documents were batched, the server is where one-by-one insertion would have left it. */
    ghost predicate Valid()
      reads this, syncExch, syncExch.db, syncExch.db.database
    {
      var spec := InsertAll(start, syncExch.sourceReplicaUid, inserted);
      && syncExch.db.Valid() && !syncExch.db.batching
      && IsUpload(inserted + staging)
      && |start.log| + |inserted + staging| < LIMIT
      && spec.Ok? && syncExch.db.Model() == spec.value.replica && syncExch.seenIds == spec.value.seen
    }

    method PostPut(e: Incoming, size: nat, docIdx: nat, numberOfDocs: nat) returns (r: Result<()>)
      requires Valid() && IsUpload(inserted + staging + [e]) && |start.log| + |inserted + staging| + 1 < LIMIT
      modifies this, syncExch`seenIds, syncExch.db`batching, syncExch.db`afterBatch, syncExch.db.database
      ensures var due := old(stagingSize) + size > 8388608 || docIdx == numberOfDocs;
        && (r.Ok? <==> due ==> syncExch.Takes(old(syncExch.db.Model()), old(staging) + [e]))
        && (!due ==>
             && staging == old(staging) + [e] && inserted == old(inserted)
             && stagingSize == old(stagingSize) + size && syncExch.db.Model() == old(syncExch.db.Model()))
        && (due && r.Ok? ==>
             staging == [] && stagingSize == 0 && inserted == old(inserted) + old(staging) + [e])
      ensures r.Ok? ==> Valid()
    {
      hide IsUpload, SoledadBackend.Valid, SoledadBackend.Model, InsertAll;
      stagingSize := stagingSize + size;
      staging := staging + [e];
      assert inserted + staging == old(inserted + staging) + [e];
      assert old(inserted + staging) + [e] == old(inserted) + old(staging) + [e];
      if stagingSize > ENTRY_CACHE_SIZE || docIdx == numberOfDocs {
        r := Flush();
        return r;
      }
      return Ok(());
    }

    method Flush() returns (r: Result<()>)
      requires Valid()
      modifies this, syncExch`seenIds, syncExch.db`batching, syncExch.db`afterBatch, syncExch.db.database
      ensures r.Ok? <==> syncExch.Takes(old(syncExch.db.Model()), old(staging))
      ensures r.Ok? ==> Valid() && inserted == old(inserted + staging) && staging == [] && stagingSize == 0
    {
      hide IsUpload, InsertAll, SoledadBackend.Valid, SoledadBackend.Model, Fits;
      ghost var source, all := syncExch.sourceReplicaUid, inserted + staging;
      syncExch.db.ModelLog();
      InsertAllGrows(start, source, inserted);
      RestIsUpload(inserted, staging);
      InsertAllAppend(start, source, inserted, staging);
      r := syncExch.BatchedInsertFromSource(staging);
      if r.Err? {
        return r;
      }
      inserted := all;
      staging := [];
      stagingSize := 0;
      assert inserted + staging == inserted;
    }
  }
}
