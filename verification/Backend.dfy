/** The server backend over the CouchDB database, proved against the same replica specification. */
module Backend {
  import opened ChangeLog
  import opened Couch
  import opened Documents
  import opened GenIds
  import opened Preservation
  import opened Pruning
  import opened ReplicaLaws
  import opened Replicas
  import opened Revisions
  import opened VectorClocks
  import opened Wrappers

  function ServerVersion(doc: ServerDocument): Version
    requires doc.rev.Some?
    reads doc
  {
    Version(doc.rev.value, doc.content)
  }

  // ---------- the replica in the store ----------

  function UserDocs(docs: map<string, CouchDoc>): map<string, Version> {
    map id <- docs.Keys | docs[id].UserDoc? :: docs[id].version
  }

  function UserConflicts(docs: map<string, CouchDoc>): map<string, seq<Version>> {
    map id <- docs.Keys | docs[id].UserDoc? && docs[id].conflicts != [] :: docs[id].conflicts
  }

  /** A document is always stored together with its conflicts. */
  function PutWith(r: Replica, docId: string, v: Version, conflicts: seq<Version>): Replica {
    Store(r, docId, v).(conflicts := WithConflicts(r.conflicts, docId, conflicts))
  }

  lemma SavedDocs(docs: map<string, CouchDoc>, docId: string, v: Version, conflicts: seq<Version>,
                  genId: string, gen: CouchDoc)
    requires genId !in docs && genId != docId && gen.GenDoc?
    ensures var after := docs[docId := UserDoc(v, conflicts)][genId := gen];
      && UserDocs(after) == UserDocs(docs)[docId := v]
      && UserConflicts(after) == WithConflicts(UserConflicts(docs), docId, conflicts)
  {
    hide UserDocs, UserConflicts, WithConflicts;
    SavedVersions(docs, docId, v, conflicts, genId, gen);
    SavedConflicts(docs, docId, v, conflicts, genId, gen);
  }

  lemma SavedVersions(docs: map<string, CouchDoc>, docId: string, v: Version, conflicts: seq<Version>,
                      genId: string, gen: CouchDoc)
    requires genId !in docs && genId != docId && gen.GenDoc?
    ensures UserDocs(docs[docId := UserDoc(v, conflicts)][genId := gen]) == UserDocs(docs)[docId := v]
  {}

  lemma SavedConflicts(docs: map<string, CouchDoc>, docId: string, v: Version, conflicts: seq<Version>,
                       genId: string, gen: CouchDoc)
    requires genId !in docs && genId != docId && gen.GenDoc?
    ensures UserConflicts(docs[docId := UserDoc(v, conflicts)][genId := gen]) ==
      WithConflicts(UserConflicts(docs), docId, conflicts)
  {}

  lemma StoringNewerIsPutting(r: Replica, docId: string, v: Version)
    requires docId in r.conflicts ==> r.conflicts[docId] != []
    ensures var p := Prune(r.uid, v, ConflictsOf(r, docId));
      StoreNewer(r, docId, v).replica == PutWith(r, docId, p.doc, p.kept)
  {
    hide Prune;
    NothingToPrune(r.uid, v);
  }

  lemma StoringIsPutting(r: Replica, docId: string, v: Version)
    requires docId in r.conflicts ==> r.conflicts[docId] != []
    ensures Store(r, docId, v) == PutWith(r, docId, v, ConflictsOf(r, docId))
  {}

  // ---------- resolving, here and in the SQL database ----------

  /**
   * The conflicts are stored with the document, so even a resolution that only adds a conflict
   * stores the document again. Without any stored conflict there is no list to add it to.
   */
  function ServerResolve(r: Replica, docId: string, content: Content, revs: seq<Clock>): Result<Replica> {
    if docId !in r.docs then Err(DocumentDoesNotExist)
    else
      var cur, conflicts := r.docs[docId], ConflictsOf(r, docId);
      var resolved := Version(MaximalRev(r.uid, cur.rev, revs), content);
      if cur.rev in revs then Ok(PutWith(r, docId, resolved, Without(conflicts, SetOf(revs))))
      else if conflicts == [] then Err(MissingConflicts)
      else Ok(PutWith(r, docId, cur, Without(conflicts + [resolved], SetOf(revs))))
  }

  /**
   * Both databases resolve to the same documents and conflicts. They differ in the log, which the
   * server extends in every case, and in what they refuse: the server a first conflict, the SQL
   * database a revision it already has.
   */
  lemma ResolvingAgreesExactlyWhen(r: Replica, docId: string, content: Content, revs: seq<Clock>)
    ensures var here, sql := ServerResolve(r, docId, content, revs), ResolveDoc(r, docId, content, revs);
      && (here.Ok? && sql.Ok? ==>
           && here.value.docs == sql.value.docs
           && here.value.conflicts == sql.value.conflicts
           && |here.value.log| == |r.log| + 1
           && (here.value.log == sql.value.log <==> r.docs[docId].rev in revs))
      && (here.Ok? && sql.Err? <==>
           && docId in r.docs && r.docs[docId].rev !in revs
           && MaximalRev(r.uid, r.docs[docId].rev, revs) in Revs(ConflictsOf(r, docId)))
      && (here.Err? && sql.Ok? <==> docId in r.docs && r.docs[docId].rev !in revs && ConflictsOf(r, docId) == [])
  {
    hide MaximalRev, Without, WithConflicts, SetOf;
    if docId in r.docs {
      assert r.docs[docId := r.docs[docId]] == r.docs;
    }
  }

  lemma PutWithLeaves(r: Replica, docId: string, v: Version, conflicts: seq<Version>)
    ensures var s := PutWith(r, docId, v, conflicts);
      && s.uid == r.uid && s.ids == r.ids && s.known == r.known
      && s.docs == r.docs[docId := v] && s.log == r.log + [Entry(docId, r.ids(|r.log| + 1))]
      && (forall d: string :: ConflictsOf(s, d) == if d == docId then conflicts else ConflictsOf(r, d))
  {
    var s := PutWith(r, docId, v, conflicts);
    forall d: string | d != docId ensures ConflictsOf(s, d) == ConflictsOf(r, d) {
      assert s.docs - {docId} == r.docs - {docId};
      SameElsewhere(r, s, docId, d);
    }
  }

  /** Likewise here: what is named goes, what is not named stays, and the change is always logged. */
  ghost predicate ServerResolvesTo(r: Replica, docId: string, revs: seq<Clock>, v: Version, resolved: Result<Replica>)
    requires docId in r.docs
  {
    if r.docs[docId].rev !in revs && ConflictsOf(r, docId) == [] then resolved == Err(MissingConflicts)
    else
      && resolved.Ok?
      && Resolved(r, resolved.value, docId, v, revs)
      && resolved.value.log == r.log + [Entry(docId, r.ids(|r.log| + 1))]
  }

  lemma ServerResolveGoes(r: Replica, docId: string, content: Content, revs: seq<Clock>, v: Version)
    requires docId in r.docs
    requires v == Version(MaximalRev(r.uid, r.docs[docId].rev, revs), content) && v.rev !in revs
    ensures ServerResolvesTo(r, docId, revs, v, ServerResolve(r, docId, content, revs))
  {
    hide MaximalRev, PutWith, Store, WithConflicts;
    var cur, conflicts := r.docs[docId], ConflictsOf(r, docId);
    if cur.rev in revs {
      PutWithLeaves(r, docId, v, Without(conflicts, SetOf(revs)));
    } else {
      PutWithLeaves(r, docId, cur, Without(conflicts + [v], SetOf(revs)));
    }
  }

  lemma ServerResolveExactly(r: Replica, docId: string, content: Content, revs: seq<Clock>)
    ensures docId !in r.docs ==> ServerResolve(r, docId, content, revs) == Err(DocumentDoesNotExist)
    ensures docId in r.docs ==> exists v ::
      && IsResolution(r, docId, v, content, revs)
      && ServerResolvesTo(r, docId, revs, v, ServerResolve(r, docId, content, revs))
  {
    if docId in r.docs {
      var v := Version(MaximalRev(r.uid, r.docs[docId].rev, revs), content);
      MaximalRevExactly(r.uid, r.docs[docId].rev, revs);
      ResolutionIsNeverSuperseded(r.uid, r.docs[docId].rev, revs);
      hide MaximalRev, IsAbove, Newer, ServerResolve, ServerResolvesTo;
      ServerResolveGoes(r, docId, content, revs, v);
      assert IsResolution(r, docId, v, content, revs);
    }
  }

  /** The ordinary resolution leaves no conflict here either. */
  lemma ServerFullResolutionSettles(r: Replica, docId: string, content: Content, revs: seq<Clock>)
    requires docId in r.docs && r.docs[docId].rev in revs
    requires forall c <- ConflictsOf(r, docId) :: c.rev in revs
    ensures var resolved := ServerResolve(r, docId, content, revs);
      && resolved.Ok?
      && ConflictsOf(resolved.value, docId) == []
      && docId in resolved.value.docs && resolved.value.docs[docId].content == content
      && Held(resolved.value, docId) == {resolved.value.docs[docId]}
  {
    hide IsAbove, ServerResolve;
    ServerResolveExactly(r, docId, content, revs);
    NoneIsEmpty(ConflictsOf(ServerResolve(r, docId, content, revs).value, docId));
  }

  // ---------- taking in a version ----------

  /** The replaced version becomes one more conflict, also if its revision is there already. */
  function ServerForce(r: Replica, docId: string, v: Version): Replica
    requires docId in r.docs
  {
    var p := Prune(r.uid, v, ConflictsOf(r, docId));
    PutWith(r, docId, p.doc, p.kept + [r.docs[docId]])
  }

  function ServerMerge(r: Replica, docId: string, v: Version, saveConflict: bool): Result<Taken> {
    var m := Merge(r, docId, v, false);
    if saveConflict && m.Ok? && m.value.outcome.ConflictFound? then Ok(Taken(ConflictFound, ServerForce(r, docId, v)))
    else m
  }

  /**
   * Both databases take in a version alike, except that the server stores the duplicate row which the
   * SQL table refuses. What it stores then loses nothing.
   */
  lemma ForcingAgreesExactlyWhen(r: Replica, docId: string, v: Version)
    ensures var here, sql := ServerMerge(r, docId, v, true), Merge(r, docId, v, true);
      && (sql.Ok? ==> here == sql)
      && (here.Ok? && sql.Err? <==> Refuses(r, docId, v))
      && (here.Ok? ==> NothingLost(r, here.value.replica))
  {
    MergeFailsExactlyWhen(r, docId, v, false);
    MergeFailsExactlyWhen(r, docId, v, true);
    var m := Merge(r, docId, v, false);
    if m.Ok? && m.value.outcome.ConflictFound? {
      ConflictIsForced(r, docId, v);
      ServerForceLosesNothing(r, docId, v);
    } else if m.Ok? {
      OtherwiseAlike(r, docId, v);
      MergeLosesNothing(r, docId, v, true);
    }
    hide Merge, ServerForce, Refuses, NothingLost;
  }

  lemma ConflictIsForced(r: Replica, docId: string, v: Version)
    requires Merge(r, docId, v, false).Ok? && Merge(r, docId, v, false).value.outcome.ConflictFound?
    ensures docId in r.docs
    ensures Merge(r, docId, v, true) ==
      if ForceConflict(r, docId, v).Err? then Err(IntegrityError) else Ok(Taken(ConflictFound, ServerForce(r, docId, v)))
  {
    hide Prune, Newer, Join, Increment, WithConflicts;
  }

  lemma OtherwiseAlike(r: Replica, docId: string, v: Version)
    requires Merge(r, docId, v, false).Ok? && !Merge(r, docId, v, false).value.outcome.ConflictFound?
    ensures Merge(r, docId, v, true) == Merge(r, docId, v, false)
  {
    hide Prune, Newer, Join, Increment, StoreNewer;
  }

  lemma ServerForceLosesNothing(r: Replica, docId: string, v: Version)
    requires docId in r.docs
    ensures NothingLost(r, ServerForce(r, docId, v))
  {
    var p, s := Prune(r.uid, v, ConflictsOf(r, docId)), ServerForce(r, docId, v);
    PruneIsSafe(r.uid, v, ConflictsOf(r, docId));
    PutShows(r, docId, p.doc, p.kept + [r.docs[docId]]);
    hide Prune, Newer, WithConflicts;
    assert p.doc in Held(s, docId);
    forall w <- Held(r, docId) ensures Survives(w, Held(s, docId)) {
      if w == r.docs[docId] || w in p.kept {
        assert w in ConflictsOf(s, docId);
      }
    }
    OnlyTouches(r, s, docId);
  }

  /** What is answered to a document of another replica; a sync never stores it as a conflict here. */
  function Answer(r: Replica, docId: string, v: Version, source: string, p: SyncPoint): Result<Taken> {
    var invalid := ValidateSource(r, source, p);
    if invalid.Some? then Err(invalid.value) else Merge(r, docId, v, false)
  }

  function AnswerSaving(r: Replica, docId: string, v: Version, saveConflict: bool, source: string, p: SyncPoint)
    : Result<Taken>
  {
    if !saveConflict then Answer(r, docId, v, source, p)
    else
      var invalid := ValidateSource(r, source, p);
      if invalid.Some? then Err(invalid.value) else ServerMerge(r, docId, v, true)
  }

  /**
   * The server answers as the SQL database does, apart from the refused duplicate row; in a batch it
   * leaves recording the source's generation for later.
   */
  lemma AnsweringAgreesExactlyWhen(r: Replica, docId: string, v: Version, saveConflict: bool, source: string, p: SyncPoint)
    ensures var here := AnswerSaving(r, docId, v, saveConflict, source, p);
      var sql := PutDocIfNewer(r, docId, v, saveConflict, source, p);
      && (sql.Ok? ==>
           && here.Ok? && here.value.outcome == sql.value.outcome
           && sql.value.replica == here.value.replica.(known := r.known[source := p]))
      && (sql.Err? ==>
           if sql.error == IntegrityError then
             here.Ok? && here.value.outcome == ConflictFound && here.value.replica.known == r.known
           else here == Err(sql.error))
  {
    ForcingAgreesExactlyWhen(r, docId, v);
    SyncPointExactly(r, docId, v, saveConflict, source, p);
    MergeFailsExactlyWhen(r, docId, v, saveConflict);
    MergeFailsExactlyWhen(r, docId, v, false);
    MergeKeepsKnown(r, docId, v, saveConflict);
    if Refuses(r, docId, v) {
      RefusedIsForced(r, docId, v);
    }
    hide Merge, ServerForce, Refuses, NothingLost;
  }

  lemma RefusedIsForced(r: Replica, docId: string, v: Version)
    requires Refuses(r, docId, v)
    ensures Merge(r, docId, v, false) == Ok(Taken(ConflictFound, r))
    ensures ServerForce(r, docId, v).known == r.known
  {
    hide Prune, Join, Increment, WithConflicts, ConflictsOf;
  }

  /** A document was stored that has conflicts and no content: what a batch cannot take. */
  predicate StoresBareConflicts(before: Replica, after: Replica, docId: string) {
    |before.log| < |after.log| && docId in after.docs && IsBare(after.docs[docId], ConflictsOf(after, docId))
  }

  predicate IsBare(v: Version, conflicts: seq<Version>) {
    v.content.None? && conflicts != []
  }

  lemma NoEmptyConflicts(docs: map<string, CouchDoc>, docId: string)
    ensures docId in UserConflicts(docs) ==> docId in UserDocs(docs) && UserConflicts(docs)[docId] != []
  {}

  lemma PutShows(r: Replica, docId: string, v: Version, conflicts: seq<Version>)
    ensures var t := PutWith(r, docId, v, conflicts);
      && |t.log| == |r.log| + 1 && docId in t.docs && t.docs[docId] == v && ConflictsOf(t, docId) == conflicts
      && t.known == r.known
  {}

  lemma StoreNewerIsNoConflict(r: Replica, docId: string, v: Version)
    ensures !StoreNewer(r, docId, v).outcome.ConflictFound?
  {}

  // ---------- the class ----------

  class SoledadBackend {
    const replicaUid: string
    const transactionIds: nat -> string
    const database: CouchDatabase
    const batchSupport: bool
    var batching: bool
    var afterBatch: Option<(string, SyncPoint)>

    constructor (replicaUid: string, transactionIds: nat -> string, database: CouchDatabase, batchSupport: bool)
      requires database.Valid() && !database.batching
      ensures this.replicaUid == replicaUid && this.transactionIds == transactionIds
      ensures this.database == database && this.batchSupport == batchSupport
      ensures Valid() && !batching
    {
      this.replicaUid, this.transactionIds := replicaUid, transactionIds;
      this.database, this.batchSupport := database, batchSupport;
      batching, afterBatch := false, None;
    }

    ghost predicate Consistent()
      reads this, database
    {
      && database.Valid()
      && batching == database.batching
      && (batching ==> batchSupport)
      && (afterBatch.Some? ==> batching)
    }

    /** And nobody else writes to the store: everything pending will be accepted. */
    ghost predicate Valid()
      reads this, database
    {
      Consistent() && AllAccepted(database.store, database.batchDocs)
    }

    lemma BatchesTogether()
      requires Valid()
      ensures Consistent() && AllAccepted(database.store, database.batchDocs)
      ensures batching == database.batching
      ensures if batching then batchSupport else database.batchDocs == map[] && afterBatch == None
    {}

    /** The replica, pending documents included. */
    ghost function Model(): Replica
      reads this, database
    {
      Replica(replicaUid, transactionIds, UserDocs(database.Docs()), UserConflicts(database.Docs()),
              database.log, database.syncDocs)
    }

    lemma ModelLog()
      ensures Model().log == database.log
    {}

    /** The caller may write this document: its id is free for documents and there is a generation left. */
    ghost predicate MayWrite(docId: string)
      reads this, database
    {
      !IsGenKey(docId) && database.Sees(docId) && |database.log| + 1 < LIMIT
    }

    /** A document as the model has it. */
    ghost predicate IsFetched(f: Option<Fetched>, docId: string, checkForConflicts: bool)
      reads this, database
    {
      if docId !in Model().docs then f == None && Accepts(database.store, docId, None)
      else
        && f.Some? && f.value.version == Model().docs[docId]
        && (checkForConflicts ==> f.value.conflicts == Attached(ConflictsOf(Model(), docId)))
        && Accepts(database.store, docId, Some(f.value.couchRev))
    }

    // ---------- reading and writing one document ----------

    method Fetch(docId: string, checkForConflicts: bool) returns (f: Option<Fetched>)
      requires Valid() && MayWrite(docId)
      modifies database`store, database`batchDocs, database`batchedIds
      ensures Valid() && Model() == old(Model()) && MayWrite(docId)
      ensures docId !in database.batchDocs && IsFetched(f, docId, checkForConflicts)
      ensures old(docId !in database.batchDocs) ==>
        database.store == old(database.store) && database.batchDocs == old(database.batchDocs)
        && database.batchedIds == old(database.batchedIds)
    {
      hide LogIs, IsGenKey, Effective;
      ghost var docs, log := database.Docs(), database.log;
      UserIdHoldsUserDoc(docs, log, docId);
      var r := database.GetDoc(docId, checkForConflicts);
      f := r.value;
    }

    method Put(baseRev: Option<nat>, doc: ServerDocument) returns (r: Result<()>)
      requires Valid() && MayWrite(doc.docId) && doc.Valid() && doc.rev.Some?
      requires Accepts(database.store, doc.docId, baseRev)
      modifies database`store, database`batchDocs, database`batchGeneration, database`log
      ensures Valid()
      ensures r == if batching && doc.content.None? && doc.GetConflicts() != [] then Err(MissingAttachment) else Ok(())
      ensures Model() == if r.Err? then old(Model())
        else PutWith(old(Model()), doc.docId, ServerVersion(doc), doc.GetConflicts())
      ensures batching || r.Err? ==> database.store == old(database.store)
      ensures r.Err? ==> database.batchDocs == old(database.batchDocs)
      ensures batching && r.Ok? ==>
        database.batchDocs.Keys == old(database.batchDocs.Keys) + {doc.docId, GenId(|database.log|)}
    {
      hide LogIs, IsGenKey, Effective, GenId, AllAccepted, UserDocs, UserConflicts, WithConflicts;
      ghost var docs, log := database.Docs(), database.log;
      var newest := database.GetGenerationInfo();
      var v, conflicts, transId := ServerVersion(doc), doc.GetConflicts(), transactionIds(newest.gen + 1);
      NextGenIsFree(docs, log, doc.docId);
      SavedDocs(docs, doc.docId, v, conflicts, GenId(|log| + 1), GenDoc(|log| + 1, doc.docId, transId));
      r := database.SaveDocument(baseRev, doc.docId, v, conflicts, transId);
    }

    // ---------- local operations ----------

    /** A caller's document is stored with whatever conflicts it carries itself. */
    method PutDoc(doc: ServerDocument) returns (r: Result<Clock>)
      requires Valid() && !batching && MayWrite(doc.docId) && doc.Valid()
      modifies database, doc`rev
      ensures Valid()
      ensures var spec := Replicas.PutDoc(old(Model()), doc.docId, old(doc.rev), doc.content);
        if spec.Err? then r == Err(spec.error) && Model() == old(Model()) && doc.rev == old(doc.rev)
        else
          && r.Ok? && doc.rev == Some(r.value)
          && Model() == PutWith(old(Model()), doc.docId, Version(r.value, doc.content), doc.GetConflicts())
          && Model().docs == spec.value.docs && Model().log == spec.value.log
    {
      hide LogIs, IsGenKey, GenId, AllAccepted, UserDocs, UserConflicts, WithConflicts, Accepts, Effective;
      if !ValidDocId(doc.docId) {
        return Err(InvalidDocId);
      }
      var cur := Fetch(doc.docId, true);
      if cur.Some? && cur.value.conflicts.Some? {
        return Err(ConflictedDoc);
      }
      var newRev;
      if cur.Some? && doc.rev == None && cur.value.version.content == None {
        newRev := AllocateDocRev(replicaUid, Some(cur.value.version.rev));
      } else {
        if cur.Some? {
          if Some(cur.value.version.rev) != doc.rev {
            return Err(RevisionConflict);
          }
        } else if doc.rev != None {
          return Err(RevisionConflict);
        }
        newRev := AllocateDocRev(replicaUid, doc.rev);
      }
      doc.rev := Some(newRev);
      var put := Put(if cur.Some? then Some(cur.value.couchRev) else None, doc);
      return Ok(newRev);
    }

    method DeleteDoc(doc: ServerDocument) returns (r: Result<Clock>)
      requires Valid() && !batching && MayWrite(doc.docId) && doc.Valid()
      modifies database, doc`rev, doc`content
      ensures Valid()
      ensures var spec := Replicas.DeleteDoc(old(Model()), doc.docId, old(doc.rev));
        if spec.Err? then
          r == Err(spec.error) && Model() == old(Model()) && doc.rev == old(doc.rev) && doc.content == old(doc.content)
        else
          && r.Ok? && doc.rev == Some(r.value) && doc.content == None
          && Model() == PutWith(old(Model()), doc.docId, Version(r.value, None), doc.GetConflicts())
          && Model().docs == spec.value.docs && Model().log == spec.value.log
    {
      hide LogIs, IsGenKey, GenId, AllAccepted, UserDocs, UserConflicts, WithConflicts, Accepts, Effective;
      var cur := Fetch(doc.docId, true);
      if cur.None? {
        return Err(DocumentDoesNotExist);
      }
      if Some(cur.value.version.rev) != doc.rev {
        return Err(RevisionConflict);
      }
      if cur.value.version.content == None {
        return Err(DocumentAlreadyDeleted);
      }
      if cur.value.conflicts.Some? {
        return Err(ConflictedDoc);
      }
      var newRev := AllocateDocRev(replicaUid, doc.rev);
      doc.rev := Some(newRev);
      doc.content := None;
      var put := Put(Some(cur.value.couchRev), doc);
      return Ok(newRev);
    }

    /** The document ends up with the conflicts that are left, wherever they are stored. */
    method ResolveDoc(doc: ServerDocument, revs: seq<Clock>) returns (r: Result<()>)
      requires Valid() && !batching && MayWrite(doc.docId) && doc.Valid()
      modifies database, doc
      ensures Valid() && doc.content == old(doc.content)
      ensures var spec := ServerResolve(old(Model()), doc.docId, doc.content, revs);
        if spec.Err? then r == Err(spec.error) && Model() == old(Model())
        else
          && r.Ok? && Model() == spec.value
          && doc.rev == Some(MaximalRev(replicaUid, old(Model()).docs[doc.docId].rev, revs))
          && doc.GetConflicts() == ConflictsOf(Model(), doc.docId)
    {
      hide LogIs, IsGenKey, GenId, AllAccepted, UserDocs, UserConflicts, WithConflicts, Accepts, Effective;
      hide MaximalRev, SetOf, Without, Pow10, PutWith, ConflictsOf;
      var fetched := Fetch(doc.docId, true);
      if fetched.None? {
        return Err(DocumentDoesNotExist);
      }
      var v := fetched.value.version;
      var cur := new ServerDocument(doc.docId, Some(v.rev), v.content);
      if fetched.value.conflicts.Some? {
        cur.SetConflicts(fetched.value.conflicts.value);
      }
      var newRev := EnsureMaximalRev(replicaUid, v.rev, revs);
      doc.rev := Some(newRev);
      if v.rev in revs {
        ReplaceBy(doc, cur, revs, fetched.value.couchRev);
        return Ok(());
      }
      r := AddResolution(doc, cur, revs, fetched.value.couchRev);
    }

    /** The resolution becomes current; of the stored conflicts the superseded ones go. */
    method ReplaceBy(doc: ServerDocument, cur: ServerDocument, revs: seq<Clock>, couchRev: nat)
      requires Valid() && !batching && MayWrite(doc.docId) && doc.Valid() && doc.rev.Some?
      requires Accepts(database.store, doc.docId, Some(couchRev))
      modifies database, doc`conflicts, doc`hasConflicts
      ensures Valid()
      ensures Model() == PutWith(old(Model()), doc.docId, ServerVersion(doc), Without(old(cur.GetConflicts()), SetOf(revs)))
      ensures doc.GetConflicts() == ConflictsOf(Model(), doc.docId)
    {
      hide LogIs, IsGenKey, GenId, AllAccepted, UserDocs, UserConflicts, WithConflicts, Accepts, Effective;
      hide SetOf, Without, Pow10, PutWith, ConflictsOf;
      ghost var before := Model();
      doc.SetConflicts(cur.GetConflicts());
      var deleted := doc.DeleteConflicts(SetOf(revs));
      PutShows(before, doc.docId, ServerVersion(doc), doc.GetConflicts());
      var put := Put(Some(couchRev), doc);
    }

    /** The current version stands and is stored again, with the resolution among its conflicts. */
    method AddResolution(doc: ServerDocument, cur: ServerDocument, revs: seq<Clock>, couchRev: nat) returns (r: Result<()>)
      requires Valid() && !batching && MayWrite(doc.docId) && doc.Valid() && doc.rev.Some?
      requires cur.Valid() && cur.rev.Some? && cur.docId == doc.docId && cur != doc
      requires Accepts(database.store, doc.docId, Some(couchRev))
      modifies database, cur`conflicts, cur`hasConflicts, doc`conflicts, doc`hasConflicts
      ensures Valid()
      ensures if old(cur.conflicts).None? then r == Err(MissingConflicts) && Model() == old(Model())
        else
          var conflicts := Without(old(cur.conflicts).value + [ServerVersion(doc)], SetOf(revs));
          && r.Ok? && Model() == PutWith(old(Model()), doc.docId, ServerVersion(cur), conflicts)
          && doc.GetConflicts() == ConflictsOf(Model(), doc.docId)
    {
      hide LogIs, IsGenKey, GenId, AllAccepted, UserDocs, UserConflicts, WithConflicts, Accepts, Effective;
      hide SetOf, Without, Pow10, PutWith, ConflictsOf;
      ghost var before := Model();
      var added := cur.AddConflict(ServerVersion(doc));
      if added.Err? {
        return added;
      }
      var deleted := cur.DeleteConflicts(SetOf(revs));
      PutShows(before, doc.docId, ServerVersion(cur), cur.GetConflicts());
      var put := Put(Some(couchRev), cur);
      doc.SetConflicts(cur.GetConflicts());
      return Ok(());
    }

    // ---------- synchronisation ----------

    /** The same scan over the conflicts a document carries as over the rows of the SQL table. */
    method PruneConflicts(doc: ServerDocument, docVcr: VectorClockRev)
      requires doc.Valid() && doc.rev == Some(docVcr.values)
      modifies doc`rev, doc`conflicts, doc`hasConflicts, docVcr
      ensures doc.Valid()
      ensures var p := Prune(replicaUid, old(ServerVersion(doc)), old(doc.GetConflicts()));
        doc.rev == Some(p.doc.rev) && doc.GetConflicts() == p.kept
      ensures old(doc.conflicts).Some? ==> doc.conflicts.Some?
    {
      if doc.hasConflicts {
        ghost var v := ServerVersion(doc);
        var rows := doc.GetConflicts();
        var autoresolved, toPrune := false, {};
        for i := 0 to |rows|
          invariant doc.rev == Some(v.rev) && doc.conflicts == old(doc.conflicts) && doc.Valid()
          invariant Scan(docVcr.values, toPrune, autoresolved) == ScanAll(v, rows[..i])
        {
          var c := rows[i];
          assert rows[..i + 1][..i] == rows[..i];
          var cVcr := new VectorClockRev(c.rev);
          var older := docVcr.IsNewer(cVcr);
          if older {
            toPrune := toPrune + {c.rev};
          } else if doc.content == c.content {
            toPrune := toPrune + {c.rev};
            docVcr.Maximize(cVcr);
            autoresolved := true;
          }
        }
        assert rows[..|rows|] == rows;
        if autoresolved {
          docVcr.IncrementFor(replicaUid);
          doc.rev := Some(docVcr.values);
        }
        var deleted := doc.DeleteConflicts(toPrune);
      } else {
        NothingToPrune(replicaUid, ServerVersion(doc));
      }
    }

    method ValidateSource(otherUid: string, p: SyncPoint) returns (error: Option<Error>)
      requires Valid()
      ensures error == Replicas.ValidateSource(Model(), otherUid, p)
    {
      var known := database.GetReplicaGenAndTransId(otherUid);
      if p.gen < known.gen {
        return Some(InvalidGeneration);
      }
      if p.gen > known.gen {
        return None;
      }
      if p.transId == known.transId {
        return None;
      }
      return Some(InvalidTransactionId);
    }

    /** The newer document replaces the current one. */
    method InsertNewer(doc: ServerDocument, docVcr: VectorClockRev, baseRev: Option<nat>) returns (r: Result<Outcome>)
      requires Valid() && MayWrite(doc.docId) && doc.Valid() && doc.rev == Some(docVcr.values)
      requires Accepts(database.store, doc.docId, baseRev) && doc.GetConflicts() == ConflictsOf(Model(), doc.docId)
      modifies database`store, database`batchDocs, database`batchGeneration, database`log, doc, docVcr
      ensures Valid()
      ensures var before, spec := old(Model()), StoreNewer(old(Model()), doc.docId, old(ServerVersion(doc)));
        if batching && StoresBareConflicts(before, spec.replica, doc.docId) then
          r == Err(MissingAttachment) && Model() == before
        else r == Ok(spec.outcome) && Model() == spec.replica
      ensures batching ==> database.store == old(database.store)
      ensures batching ==> database.batchDocs.Keys <= old(database.batchDocs.Keys) + {doc.docId, GenId(|database.log|)}
    {
      hide LogIs, IsGenKey, GenId, AllAccepted, UserDocs, UserConflicts, WithConflicts, Accepts, Effective, Prune;
      hide PutWith, ConflictsOf, Pow10;
      ghost var before, v, conflicts := Model(), ServerVersion(doc), doc.GetConflicts();
      NoEmptyConflicts(database.Docs(), doc.docId);
      StoringNewerIsPutting(before, doc.docId, v);
      ghost var p := Prune(replicaUid, v, conflicts);
      PutShows(before, doc.docId, p.doc, p.kept);
      PruneIsSafe(replicaUid, v, conflicts);
      var rev := doc.rev;
      PruneConflicts(doc, docVcr);
      var put := Put(baseRev, doc);
      if put.Err? {
        return Err(put.error);
      }
      return Ok(if doc.rev != rev then Superseded else Inserted);
    }

    /** Both sides were edited to the same content. */
    method InsertSame(doc: ServerDocument, docVcr: VectorClockRev, curVcr: VectorClockRev, baseRev: Option<nat>)
      returns (r: Result<Outcome>)
      requires Valid() && MayWrite(doc.docId) && doc.Valid() && doc.rev == Some(docVcr.values)
      requires Accepts(database.store, doc.docId, baseRev) && doc.GetConflicts() == ConflictsOf(Model(), doc.docId)
      modifies database`store, database`batchDocs, database`batchGeneration, database`log, doc`rev, docVcr
      ensures Valid()
      ensures var before := old(Model());
        var rev := Increment(Join(old(docVcr.values), old(curVcr.values)), replicaUid);
        var after := Store(before, doc.docId, Version(rev, doc.content));
        if batching && StoresBareConflicts(before, after, doc.docId) then r == Err(MissingAttachment) && Model() == before
        else r == Ok(Superseded) && Model() == after
      ensures batching ==> database.store == old(database.store)
      ensures batching ==> database.batchDocs.Keys <= old(database.batchDocs.Keys) + {doc.docId, GenId(|database.log|)}
    {
      hide LogIs, IsGenKey, GenId, AllAccepted, UserDocs, UserConflicts, WithConflicts, Accepts, Effective;
      hide PutWith, ConflictsOf, Pow10, Store;
      ghost var before, conflicts := Model(), doc.GetConflicts();
      NoEmptyConflicts(database.Docs(), doc.docId);
      docVcr.Maximize(curVcr);
      docVcr.IncrementFor(replicaUid);
      doc.rev := Some(docVcr.values);
      StoringIsPutting(before, doc.docId, ServerVersion(doc));
      PutShows(before, doc.docId, ServerVersion(doc), conflicts);
      var put := Put(baseRev, doc);
      if put.Err? {
        return Err(put.error);
      }
      return Ok(Superseded);
    }

    /** Takes the incoming version as the current one and keeps ours as a conflict. */
    method ForceDocSyncConflict(doc: ServerDocument, docVcr: VectorClockRev, mine: Fetched) returns (r: Result<Outcome>)
      requires Valid() && MayWrite(doc.docId) && doc.Valid() && doc.rev == Some(docVcr.values) && doc.conflicts.Some?
      requires IsFetched(Some(mine), doc.docId, false) && doc.GetConflicts() == ConflictsOf(Model(), doc.docId)
      modifies database`store, database`batchDocs, database`batchGeneration, database`log, doc, docVcr
      ensures Valid()
      ensures var before := old(Model());
        && doc.docId in before.docs
        && var after := ServerForce(before, doc.docId, old(ServerVersion(doc)));
          if batching && StoresBareConflicts(before, after, doc.docId) then r == Err(MissingAttachment) && Model() == before
          else r == Ok(ConflictFound) && Model() == after
      ensures batching ==> database.store == old(database.store)
      ensures batching ==> database.batchDocs.Keys <= old(database.batchDocs.Keys) + {doc.docId, GenId(|database.log|)}
    {
      hide LogIs, IsGenKey, GenId, AllAccepted, UserDocs, UserConflicts, WithConflicts, Accepts, Effective, Prune;
      hide PutWith, ConflictsOf, Pow10;
      ghost var before, v, conflicts := Model(), ServerVersion(doc), doc.GetConflicts();
      ghost var p := Prune(replicaUid, v, conflicts);
      PutShows(before, doc.docId, p.doc, p.kept + [mine.version]);
      PruneIsSafe(replicaUid, v, conflicts);
      PruneConflicts(doc, docVcr);
      var added := doc.AddConflict(mine.version);
      var put := Put(Some(mine.couchRev), doc);
      if put.Err? {
        return Err(put.error);
      }
      return Ok(ConflictFound);
    }

    /** The four outcomes. The document already carries the stored conflicts. */
    method MergeDoc(doc: ServerDocument, docVcr: VectorClockRev, cur: Option<Fetched>, saveConflict: bool)
      returns (r: Result<Outcome>)
      requires Valid() && MayWrite(doc.docId) && doc.Valid() && doc.rev == Some(docVcr.values)
      requires IsFetched(cur, doc.docId, false) && doc.GetConflicts() == ConflictsOf(Model(), doc.docId)
      requires cur.Some? ==> doc.conflicts.Some?
      modifies database`store, database`batchDocs, database`batchGeneration, database`log, doc, docVcr
      ensures Valid()
      ensures var before, spec := old(Model()), ServerMerge(old(Model()), doc.docId, old(ServerVersion(doc)), saveConflict);
        if spec.Err? then r == Err(spec.error) && Model() == before
        else if batching && StoresBareConflicts(before, spec.value.replica, doc.docId) then
          r == Err(MissingAttachment) && Model() == before
        else r == Ok(spec.value.outcome) && Model() == spec.value.replica
      ensures batching ==> database.store == old(database.store)
      ensures batching ==> database.batchDocs.Keys <= old(database.batchDocs.Keys) + {doc.docId, GenId(|database.log|)}
    {
      hide LogIs, IsGenKey, GenId, AllAccepted, UserDocs, UserConflicts, WithConflicts, Accepts, Effective;
      hide ConflictsOf, Pow10, Store, StoreNewer, Newer, Join, Increment, ServerForce;
      StoreNewerIsNoConflict(Model(), doc.docId, ServerVersion(doc));
      var curVcr := new VectorClockRev(if cur.Some? then cur.value.version.rev else map[]);
      var baseRev := if cur.Some? then Some(cur.value.couchRev) else None;
      var newer := docVcr.IsNewer(curVcr);
      if newer {
        r := InsertNewer(doc, docVcr, baseRev);
        return r;
      }
      if cur.None? {
        return Err(MalformedRevision);
      }
      if doc.rev.value == cur.value.version.rev {
        return Ok(Converged);
      }
      var older := curVcr.IsNewer(docVcr);
      if older {
        return Ok(Superseded);
      }
      if cur.value.version.content == doc.content {
        r := InsertSame(doc, docVcr, curVcr, baseRev);
        return r;
      }
      if saveConflict {
        r := ForceDocSyncConflict(doc, docVcr, cur.value);
        return r;
      }
      return Ok(ConflictFound);
    }

    /** Reads the current version, and the stored conflicts into the incoming document. */
    method ReadCurrent(doc: ServerDocument) returns (cur: Option<Fetched>)
      requires Valid() && MayWrite(doc.docId) && doc.Valid() && doc.GetConflicts() == []
      modifies database`store, database`batchDocs, database`batchedIds, doc`conflicts, doc`hasConflicts
      ensures Valid() && Model() == old(Model()) && MayWrite(doc.docId) && doc.Valid()
      ensures IsFetched(cur, doc.docId, false) && doc.GetConflicts() == ConflictsOf(Model(), doc.docId)
      ensures cur.Some? ==> doc.conflicts.Some?
      ensures old(doc.docId !in database.batchDocs) ==>
        database.store == old(database.store) && database.batchDocs == old(database.batchDocs)
        && database.batchedIds == old(database.batchedIds)
    {
      hide LogIs, IsGenKey, Effective, AllAccepted, Accepts, Pow10;
      NoEmptyConflicts(database.Docs(), doc.docId);
      hide UserDocs, UserConflicts;
      var mine := Fetch(doc.docId, true);
      if mine.Some? {
        doc.SetConflicts(if mine.value.conflicts.Some? then mine.value.conflicts.value else []);
      }
      cur := Fetch(doc.docId, false);
    }

    /** In a batch, what is known of the source is not recorded yet but kept for its end. */
    method PutDocIfNewer(doc: ServerDocument, saveConflict: bool, source: string, p: SyncPoint)
      returns (r: Result<Outcome>, atGen: nat)
      requires Valid() && MayWrite(doc.docId) && doc.Valid() && doc.rev.Some? && doc.GetConflicts() == []
      modifies this`afterBatch, database, doc
      ensures Valid() && database.batching == old(database.batching)
      ensures var before := old(Model());
        var spec := AnswerSaving(before, doc.docId, old(ServerVersion(doc)), saveConflict, source, p);
        if spec.Err? then r == Err(spec.error) && Model() == before
        else if batching && StoresBareConflicts(before, spec.value.replica, doc.docId) then
          r == Err(MissingAttachment) && Model() == before
        else
          && r == Ok(spec.value.outcome) && atGen == |Model().log|
          && Model() == if batching then spec.value.replica else SetKnown(spec.value.replica, source, p)
      ensures afterBatch == if batching && r.Ok? then Some((source, p)) else old(afterBatch)
      ensures batching && old(doc.docId !in database.batchDocs) ==>
        && database.store == old(database.store) && database.batchedIds == old(database.batchedIds)
        && database.batchDocs.Keys <= old(database.batchDocs.Keys) + {doc.docId, GenId(|database.log|)}
    {
      hide LogIs, IsGenKey, GenId, AllAccepted, UserDocs, UserConflicts, WithConflicts, Accepts, Effective, Merge;
      hide ServerForce, ConflictsOf, Pow10, Replicas.ValidateSource, StoresBareConflicts;
      atGen := 0;
      var cur := ReadCurrent(doc);
      var docVcr := new VectorClockRev(doc.rev.value);
      var invalid := ValidateSource(source, p);
      if invalid.Some? {
        return Err(invalid.value), atGen;
      }
      r := MergeDoc(doc, docVcr, cur, saveConflict);
      if r.Err? {
        return r, atGen;
      }
      if batching {
        afterBatch := Some((source, p));
      } else {
        database.SetReplicaGenAndTransId(source, p);
      }
      var newest := database.GetGenerationInfo();
      atGen := newest.gen;
    }

    // ---------- batches ----------

    method BatchStart()
      requires Valid() && !batching
      modifies this`batching, this`afterBatch, database
      ensures Valid() && Model() == old(Model()) && batching == batchSupport && afterBatch == None
      ensures database.store == old(database.store) && database.batchDocs == old(database.batchDocs)
      ensures batching ==> database.batchedIds == database.store.Keys
    {
      if !batchSupport {
        return;
      }
      batching := true;
      afterBatch := None;
      database.BatchStart();
    }

    /**
     * The documents are stored first; only when all of them are is the source's last generation
     * recorded. If someone else has changed one of them meanwhile, it is not.
     */
    method BatchEnd() returns (r: Result<()>)
      requires Consistent() && batching == batchSupport
      modifies this`batching, this`afterBatch, database
      ensures batching && !old(AllAccepted(database.store, database.batchDocs)) ==>
        r == Err(RevisionConflict) && database.syncDocs == old(database.syncDocs)
      ensures old(AllAccepted(database.store, database.batchDocs)) ==>
        && r.Ok? && Valid() && !batching
        && Model() == match old(afterBatch)
           case None => old(Model())
           case Some(point) => SetKnown(old(Model()), point.0, point.1)
    {
      hide LogIs, UserDocs, UserConflicts, Effective;
      if !batchSupport {
        return Ok(());
      }
      r := database.BatchEnd();
      if r.Err? {
        return r;
      }
      batching := false;
      if afterBatch.Some? {
        database.SetReplicaGenAndTransId(afterBatch.value.0, afterBatch.value.1);
      }
      afterBatch := None;
    }
  }

  lemma UserIdHoldsUserDoc(docs: map<string, CouchDoc>, log: seq<Entry>, id: string)
    requires LogIs(docs, log) && !IsGenKey(id)
    ensures id in docs ==> docs[id].UserDoc?
  {
    if id in docs && docs[id].GenDoc? {
      GenDocIsInLog(docs, log, id);
      GenKeysAreBetween(docs[id].gen);
    }
  }

  lemma NextGenIsFree(docs: map<string, CouchDoc>, log: seq<Entry>, docId: string)
    requires LogIs(docs, log) && |log| + 1 < LIMIT && !IsGenKey(docId)
    ensures GenId(|log| + 1) !in docs && GenId(|log| + 1) != docId
  {
    hide GenId, IsGenKey;
    LogGrows(docs, log, docId, UserDoc(Version(ZERO, None), []), "");
    GenKeysAreBetween(|log| + 1);
  }
}
