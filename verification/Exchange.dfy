/** One synchronisation between two databases, as the source runs it step by step. */
module Exchange {
  import opened CarefulRuns
  import opened ChangeLog
  import opened Documents
  import opened Guarantees
  import opened LinkInvariant
  import opened LinkReceive
  import opened LinkRefusal
  import opened Links
  import opened Preservation
  import opened Replicas
  import opened Sqlite
  import opened Wrappers

  /** Where conflicts are not saved there is no row to be a duplicate. */
  lemma UploadsAreNotRefused(r: Replica, docId: string, v: Version, source: string, p: SyncPoint)
    ensures var put := PutDocIfNewer(r, docId, v, false, source, p);
      put.Err? ==> put.error != IntegrityError
  {
    MergeFailsExactlyWhen(r, docId, v, false);
    hide Merge;
  }

  /** Steps and state of an exchange on the target. */
  class SyncExchange {
    const db: SqliteDatabase
    const sourceReplicaUid: string
    const sourceLastKnownGeneration: nat
    var seenIds: map<string, nat>
    var changesToReturn: seq<Change>
    var newPoint: SyncPoint

    constructor (db: SqliteDatabase, sourceReplicaUid: string, lastKnownGeneration: nat)
      ensures this.db == db && this.sourceReplicaUid == sourceReplicaUid
      ensures sourceLastKnownGeneration == lastKnownGeneration
      ensures seenIds == map[]
    {
      this.db, this.sourceReplicaUid, sourceLastKnownGeneration := db, sourceReplicaUid, lastKnownGeneration;
      seenIds, changesToReturn, newPoint := map[], [], SyncPoint(0, "");
    }

    /** Conflicting documents are not inserted; they will be sent back instead. */
    method InsertDocFromSource(doc: Document, p: SyncPoint) returns (r: Result<Outcome>)
      requires doc.rev.Some?
      modifies this`seenIds, db, doc`rev, doc`hasConflicts
      ensures var spec := PutDocIfNewer(old(db.Model()), doc.docId, old(VersionOf(doc)), false, sourceReplicaUid, p);
        if spec.Ok? then
          && db.Model() == spec.value.replica && r == Ok(spec.value.outcome)
          && seenIds == if r.value.Inserted? || r.value.Converged? then old(seenIds)[doc.docId := |db.transactionLog|] else old(seenIds)
        else db.Model() == old(db.Model()) && r == Err(spec.error) && seenIds == old(seenIds)
    {
      UploadsAreNotRefused(db.Model(), doc.docId, VersionOf(doc), sourceReplicaUid, p);
      hide Replicas.PutDocIfNewer, Refuse;
      var state, atGen := db.PutDocIfNewer(doc, false, sourceReplicaUid, p);
      if state.Ok? {
        match state.value
        case Inserted => seenIds := seenIds[doc.docId := atGen];
        case Converged => seenIds := seenIds[doc.docId := atGen];
        case Superseded =>
        case ConflictFound =>
      }
      return state;
    }

    method FindChangesToReturn() returns (newGen: nat)
      modifies this`changesToReturn, this`newPoint
      ensures newPoint == Tip(db.transactionLog) && newGen == newPoint.gen
      ensures changesToReturn == ToReturn(Changes(db.transactionLog, sourceLastKnownGeneration), seenIds)
    {
      var gen, transId, changes := db.WhatsChanged(sourceLastKnownGeneration);
      newPoint := SyncPoint(gen, transId);
      var kept := [];
      for i := 0 to |changes|
        invariant kept == ToReturn(changes[..i], seenIds)
      {
        var c := changes[i];
        assert changes[..i + 1][..i] == changes[..i];
        if c.docId !in seenIds || seenIds[c.docId] < c.gen {
          kept := kept + [c];
        }
      }
      assert changes[..|changes|] == changes;
      changesToReturn := kept;
      return gen;
    }
  }

  /** The whole of a sync nobody interferes with, up to what is recorded with the target. */
  ghost function FullSync(l: Link): Link {
    if StartStep(l) == l then l else RecordInfoStep(CheckGaplessStep(QuietSync(l)))
  }

  lemma {:induction false} SendRoundsKeepInv(l: Link, n: nat)
    requires FullInv(l)
    ensures FullInv(SendRounds(l, n))
  {
    hide FullInv, SendStep, InsertStep, RecordStep;
    if n > 0 {
      SendRoundsKeepInv(l, n - 1);
      var a := SendRounds(l, n - 1);
      AdvanceKeepsFullInv(a, Send);
      AdvanceKeepsFullInv(SendStep(a), Insert);
      AdvanceKeepsFullInv(InsertStep(SendStep(a)), Record);
    }
  }

  lemma {:induction false} ReturnRoundsKeepInv(l: Link, n: nat)
    requires FullInv(l)
    ensures FullInv(ReturnRounds(l, n))
  {
    hide FullInv, ReturnStep, DeliverStep;
    if n > 0 {
      ReturnRoundsKeepInv(l, n - 1);
      var a := ReturnRounds(l, n - 1);
      AdvanceKeepsFullInv(a, SyncStep.Return);
      AdvanceKeepsFullInv(ReturnStep(a), Deliver);
    }
  }

  /** A sync up to where every returned document has been handed on. */
  ghost function Received(l: Link): Link {
    ReturnRounds(Found(l), |Found(l).session.toReturn|)
  }

  lemma ReceivedKeepsInv(l: Link)
    requires FullInv(l)
    ensures FullInv(Received(l)) && FullInv(Received(l).(session := NO_SESSION))
  {
    hide FullInv, StartStep, FindStep, SendRounds, ReturnRounds;
    var started := StartStep(l);
    AdvanceKeepsFullInv(l, SyncStep.Start);
    SendRoundsKeepInv(started, |started.session.changes|);
    AdvanceKeepsFullInv(SendRounds(started, |started.session.changes|), Find);
    ReturnRoundsKeepInv(Found(l), |Found(l).session.toReturn|);
    AdvanceKeepsFullInv(Received(l), Abort);
    AbortDropsSession(Received(l));
  }

  lemma FullSyncKeepsInv(l: Link)
    requires FullInv(l) && l.session == NO_SESSION
    ensures FullInv(FullSync(l).(session := NO_SESSION))
  {
    hide FullInv, StartStep, Found, ReturnRounds, CompleteStep, CheckGaplessStep, RecordInfoStep;
    ReceivedKeepsInv(l);
    AdvanceKeepsFullInv(Received(l), Complete);
    AdvanceKeepsFullInv(QuietSync(l), CheckGapless);
    AdvanceKeepsFullInv(CheckGaplessStep(QuietSync(l)), RecordInfo);
    AdvanceKeepsFullInv(FullSync(l), Abort);
    AbortDropsSession(FullSync(l));
  }

  /** One round of sending is one put at the server. */
  lemma SendRoundIsPut(l: Link)
    requires l.session.phase == Sending && l.session.unrecorded == None
    requires |l.session.sent| == |l.session.outcomes| < |l.session.changes|
    ensures var c, n := l.session.changes[|l.session.outcomes|], SendRound(l);
      if c.docId !in l.client.docs then n.session == NO_SESSION
      else
        var v := l.client.docs[c.docId];
        var put := PutDocIfNewer(l.server, c.docId, v, false, l.client.uid, PointOf(c));
        if put.Err? then n.session == NO_SESSION
        else
          && n.client == l.client && n.server == put.value.replica && n.skipped == l.skipped
          && n.session == l.session.(
               sent := l.session.sent + [v],
               outcomes := l.session.outcomes + [put.value.outcome],
               seenIds := if Settles(put.value.outcome) then l.session.seenIds[c.docId := |n.server.log|] else l.session.seenIds)
  {
    hide Merge, ValidateSource;
  }

  /** One round of returning is one put at the client, successful or not. */
  lemma ReturnRoundIsPut(l: Link)
    requires l.session.phase == Receiving
    requires |l.session.returned| == l.session.delivered < |l.session.toReturn|
    ensures var c, n := l.session.toReturn[l.session.delivered], ReturnRound(l);
      if c.docId !in l.server.docs then n.session == NO_SESSION
      else
        var v := l.server.docs[c.docId];
        var put := PutDocIfNewer(l.client, c.docId, v, true, l.server.uid, PointOf(c));
        && n.server == l.server
        && n.client == AfterPut(l.client, c.docId, v, true, l.server.uid, PointOf(c))
        && n.session == l.session.(
             returned := l.session.returned + [v],
             delivered := l.session.delivered + 1,
             numInserted := l.session.numInserted + (if put.Ok? && Counts(put.value.outcome) then 1 else 0),
             numLogged := n.session.numLogged)
  {
    hide PutDocIfNewer, AfterPut;
  }

  lemma RecordingKeepsAgreement(l: Link, d: string)
    ensures Agree(RecordInfoStep(CheckGaplessStep(l)).(session := NO_SESSION), d) == Agree(l, d)
  {}

  /** What a sync that completes leaves behind. */
  lemma SyncKeeps(l: Link)
    requires l.session == NO_SESSION
    ensures FullInv(l) ==> FullInv(FullSync(l).(session := NO_SESSION))
    ensures FullInv(l) ==>
      forall d :: Agree(FullSync(l).(session := NO_SESSION), d) <==> !WillBeSkipped(Found(l), d)
  {
    if FullInv(l) {
      hide FullInv, QuietSync, StartStep, CheckGaplessStep, RecordInfoStep, WillBeSkipped, Agree;
      forall d ensures Agree(FullSync(l).(session := NO_SESSION), d) <==> !WillBeSkipped(Found(l), d) {
        QuietSyncAgreesExactlyWhen(l, d);
        RecordingKeepsAgreement(QuietSync(l), d);
        NothingExchanged(l, d);
      }
      FullSyncKeepsInv(l);
    }
  }

  lemma NothingExchanged(l: Link, d: string)
    requires l.session == NO_SESSION
    ensures StartStep(l) == l ==> QuietSync(l) == l && FullSync(l) == l
    ensures StartStep(l) == l ==> Agree(FullSync(l).(session := NO_SESSION), d) == Agree(QuietSync(l), d)
  {}

  /** An upload that raises means the sync did not start from a reachable state. */
  lemma AbortedSend(l: Link, k: nat)
    requires l.session == NO_SESSION && StartStep(l) != l
    requires k <= |StartStep(l).session.changes| && SendRounds(StartStep(l), k).session == NO_SESSION
    ensures !FullInv(l)
  {
    if FullInv(l) {
      StartIsReady(l);
      hide FullInv, StartStep;
      SendRoundsSucceed(StartStep(l), k);
    }
  }

  /** So does a document that is listed at the target and not there. */
  lemma AbortedReceive(l: Link, k: nat)
    requires l.session == NO_SESSION && StartStep(l) != l
    requires k <= |Found(l).session.toReturn| && ReturnRounds(Found(l), k).session == NO_SESSION
    ensures !FullInv(l)
  {
    if FullInv(l) {
      FoundIsReady(l);
      hide FullInv, StartStep, Found;
      ReturnRoundsGo(Found(l), k);
    }
  }

  // ---------- insertions that raise ----------

  /** The insertion of the k-th returned document raises. */
  ghost predicate Raises(found: Link, k: nat)
    requires k < |found.session.toReturn|
  {
    var a, c := ReturnRounds(found, k), found.session.toReturn[k];
    c.docId in a.server.docs &&
    PutDocIfNewer(a.client, c.docId, a.server.docs[c.docId], true, a.server.uid, PointOf(c)).Err?
  }

  /** What the state before receiving says about all insertions to come. */
  ghost predicate NothingRefused(found: Link) {
    forall c <- found.session.toReturn :: c.docId in found.server.docs ==>
      !Refuses(found.client, c.docId, found.server.docs[c.docId])
  }

  lemma RaisesExactlyWhen(found: Link, k: nat)
    requires ReceivedSoFar(found, found, 0) && k < |found.session.toReturn|
    ensures var d := found.session.toReturn[k].docId;
      d in found.server.docs && (Raises(found, k) <==> Refuses(found.client, d, found.server.docs[d]))
  {
    hide FullInv, Refuses, PutDocIfNewer;
    var d := found.session.toReturn[k].docId;
    ReturnRoundsGo(found, k);
    FateIsDecided(found, k, d);
    hide ReturnRounds;
    var a := ReturnRounds(found, k);
    DocsAreDistinct(found, k);
    FullInvGivesLinkInv(a);
    ServerReadsAnyChange(a);
    RefusesLooksAt(a.client, found.client, d, found.server.docs[d]);
    AdvanceKeepsFullInv(a, SyncStep.Return);
    FullInvGivesLinkInv(ReturnStep(a));
    hide LinkInv;
    DeliverIsRefusal(ReturnStep(a), d, a.server.docs[d]);
  }

  lemma DocsAreDistinct(found: Link, k: nat)
    requires FullInv(found) && found.session.phase == Receiving && k < |found.session.toReturn|
    ensures IndexOf(found.session.toReturn, found.session.toReturn[k].docId) == k
  {
    IndexIsUnique(found.session.toReturn, k);
  }

  lemma NothingRaisesExactlyWhen(l: Link)
    requires FullInv(l) && l.session == NO_SESSION && StartStep(l) != l
    ensures NothingRefused(Found(l)) <==>
      forall k :: 0 <= k < |Found(l).session.toReturn| ==> !Raises(Found(l), k)
  {
    FoundIsReady(l);
    hide FullInv, StartStep, Found, Raises, Refuses, ReceivedSoFar;
    var found := Found(l);
    forall k | 0 <= k < |found.session.toReturn|
      ensures var d := found.session.toReturn[k].docId;
        d in found.server.docs && (Raises(found, k) <==> Refuses(found.client, d, found.server.docs[d]))
    {
      RaisesExactlyWhen(found, k);
    }
    assert forall k :: 0 <= k < |found.session.toReturn| ==> found.session.toReturn[k] in found.session.toReturn;
  }

  lemma ApartRaisesNothing(l: Link)
    requires FullInv(l) && l.session == NO_SESSION && StartStep(l) != l && Apart(l)
    ensures NothingRefused(Found(l))
  {
    FoundIsReady(l);
    hide FullInv, StartStep, Found, Refuses, ReceivedSoFar, DistinctHeld;
    forall c <- Found(l).session.toReturn | c.docId in Found(l).server.docs
      ensures !Refuses(Found(l).client, c.docId, Found(l).server.docs[c.docId])
    {
      assert DistinctHeld(l.client, c.docId);
      ApartIsNotRefused(l.client, c.docId, Found(l).server.docs[c.docId]);
    }
  }

  /** All that is known of a sync before it is made. */
  lemma SyncOutcome(l: Link)
    requires l.session == NO_SESSION
    ensures StartStep(l) == l ==> FullSync(l) == l
    ensures FullInv(l) ==>
      && FullInv(FullSync(l).(session := NO_SESSION))
      && FullInv(Received(l).(session := NO_SESSION))
      && (forall d :: Agree(FullSync(l).(session := NO_SESSION), d) <==> !WillBeSkipped(Found(l), d))
      && (StartStep(l) != l ==>
           (NothingRefused(Found(l)) <==> forall k :: 0 <= k < |Found(l).session.toReturn| ==> !Raises(Found(l), k)))
      && (Apart(l) ==> (StartStep(l) != l ==> NothingRefused(Found(l))) && forall d :: !WillBeSkipped(Found(l), d))
  {
    hide FullInv, QuietSync, StartStep, Found, Received, Apart, NothingRefused, WillBeSkipped, Agree, Raises;
    NothingExchanged(l, "");
    SyncKeeps(l);
    if FullInv(l) {
      ReceivedKeepsInv(l);
      if StartStep(l) != l {
        FoundIsReady(l);
        NothingRaisesExactlyWhen(l);
        if Apart(l) {
          ApartRaisesNothing(l);
        }
      } else {
        NothingToExchange(l, "");
      }
      if Apart(l) {
        forall d ensures !WillBeSkipped(Found(l), d) {
          ApartIsNeverSkipped(l, d);
        }
      }
    }
  }

  lemma ReceivedIsShown(l: Link, source: Replica, numInserted: nat)
    requires ReturnedThrough(Found(l), |Found(l).session.toReturn|, source, numInserted)
    ensures Received(l) == Link(Found(l).server, source, Received(l).session, Received(l).skipped)
  {
    hide Found, ReturnRounds;
  }

  lemma CompletingSkipsNothing(l: Link)
    ensures CompleteStep(l).skipped == l.skipped
  {}

  /** The end of a completed sync: the source's generation is reported if nothing else was logged. */
  lemma ReportAfterCompleting(n: Link)
    requires n.session.phase == Finished && n.session.gapless == None
    ensures var reports := |n.client.log| == n.session.startGen + n.session.numInserted && n.session.numInserted > 0;
      RecordInfoStep(CheckGaplessStep(n)).(session := NO_SESSION) ==
        n.(server := if reports then SetKnown(n.server, n.client.uid, Tip(n.client.log)) else n.server,
           session := NO_SESSION)
  {}

  // ---------- the progress of an exchange ----------

  /** After `k` documents were sent: the target's state and its seen ids are those of the rounds. */
  ghost predicate SentThrough(started: Link, k: nat, target: Replica, seenIds: map<string, nat>) {
    var n := SendRounds(started, k);
    && n == Link(target, started.client, n.session, started.skipped)
    && n.session == started.session.(sent := n.session.sent, outcomes := n.session.outcomes, seenIds := seenIds)
    && |n.session.sent| == |n.session.outcomes| == k
  }

  ghost predicate ReturnedThrough(found: Link, k: nat, source: Replica, numInserted: nat) {
    var n := ReturnRounds(found, k);
    && n == Link(found.server, source, n.session, n.skipped)
    && n.session == found.session.(
         returned := n.session.returned, delivered := k, numInserted := numInserted, numLogged := n.session.numLogged)
    && |n.session.returned| == k
  }

  lemma NothingSent(started: Link)
    requires started.session.sent == [] && started.session.outcomes == []
    ensures SentThrough(started, 0, started.server, started.session.seenIds)
  {}

  lemma NothingReturned(found: Link, numInserted: nat)
    requires found.session.returned == [] && found.session.delivered == 0 && found.session.numInserted == numInserted
    ensures ReturnedThrough(found, 0, found.client, numInserted)
  {}

  lemma FindAfterSending(started: Link, k: nat, target: Replica, seenIds: map<string, nat>)
    requires SentThrough(started, k, target, seenIds)
    requires started.session ==
      NO_SESSION.(phase := Sending, startGen := started.session.startGen, changes := started.session.changes)
    requires k == |started.session.changes|
    ensures var n := FindStep(SendRounds(started, k));
      && n == Link(target, started.client, n.session, started.skipped)
      && n.session.phase == Receiving && n.session.startGen == started.session.startGen
      && n.session.newPoint == Tip(target.log)
      && n.session.toReturn == ToReturn(Changes(target.log, KnownOf(started.client, target.uid).gen), seenIds)
      && n.session.returned == [] && n.session.delivered == 0 && n.session.numInserted == 0
      && n.session.gapless == None
  {
    hide ToReturn, Changes, SendRounds;
  }

  lemma CompleteAfterReturning(found: Link, k: nat, source: Replica, numInserted: nat)
    requires ReturnedThrough(found, k, source, numInserted)
    requires found.session.phase == Receiving && k == |found.session.toReturn|
    ensures var n := CompleteStep(ReturnRounds(found, k));
      && n == Link(found.server, SetKnown(source, found.server.uid, found.session.newPoint), n.session, n.skipped)
      && n.session.phase == Finished && n.session.numInserted == numInserted
      && n.session.startGen == found.session.startGen && n.session.gapless == found.session.gapless
  {
    hide ReturnRounds;
  }

  /** From a reachable state no validation at the start of a sync fails. */
  lemma InvMeansValid(l: Link)
    ensures FullInv(l) ==>
      && l.server.uid != l.client.uid
      && OnLog(l.client.log, KnownByServer(l))
      && OnLog(l.server.log, Known(l))
  {}

  /** The state around synchronising a source with a target. */
  class Synchronizer {
    const source: SqliteDatabase
    const target: SqliteDatabase
    var numInserted: nat
    /** The documents whose last insertion at the source raised. */
    ghost var skipped: set<string>

    constructor (source: SqliteDatabase, target: SqliteDatabase)
      ensures this.source == source && this.target == target && numInserted == 0 && skipped == {}
    {
      this.source, this.target, numInserted := source, target, 0;
      skipped := {};
    }

    /** The two databases between syncs. */
    ghost function Now(): Link
      reads this, source, target
    {
      Link(target.Model(), source.Model(), NO_SESSION, skipped)
    }

    /** Take the target's document as the current one, keeping ours as a conflict. */
    method InsertDocFromTarget(doc: Document, p: SyncPoint) returns (r: Result<Outcome>)
      requires doc.rev.Some?
      modifies this`numInserted, source, doc`rev, doc`hasConflicts
      ensures source.Model() ==
        AfterPut(old(source.Model()), doc.docId, old(VersionOf(doc)), true, target.replicaUid, p)
      ensures var spec := PutDocIfNewer(old(source.Model()), doc.docId, old(VersionOf(doc)), true, target.replicaUid, p);
        && r == (if spec.Ok? then Ok(spec.value.outcome) else Err(spec.error))
        && numInserted == old(numInserted) + (if r.Ok? && (r.value.Inserted? || r.value.ConflictFound?) then 1 else 0)
    {
      hide Replicas.PutDocIfNewer, Refuse;
      var state, _ := source.PutDocIfNewer(doc, true, target.replicaUid, p);
      if state.Ok? {
        match state.value
        case Inserted => numInserted := numInserted + 1;
        case Converged =>
        case Superseded =>
        case ConflictFound => numInserted := numInserted + 1;
      }
      return state;
    }

    /** Tell the target our generation if nothing but this sync has been logged since the start. */
    method RecordSyncInfoWithTheTarget(startGeneration: nat) returns (recorded: bool)
      requires source != target
      modifies target`syncLog
      ensures recorded <==> |source.transactionLog| == startGeneration + numInserted && numInserted > 0
      ensures target.Model() ==
        if recorded then SetKnown(old(target.Model()), source.replicaUid, Tip(source.transactionLog))
        else old(target.Model())
    {
      var curGen := |source.transactionLog|;
      var transId := if curGen == 0 then "" else source.transactionLog[curGen - 1].transId;
      recorded := curGen == startGeneration + numInserted && numInserted > 0;
      if recorded {
        target.SetReplicaGenAndTransId(source.replicaUid, SyncPoint(curGen, transId));
      }
    }

    /** Send the next changed document, as the source has it now. */
    method SendDoc(exchange: SyncExchange, c: Change, ghost started: Link, ghost i: nat) returns (r: Result<()>)
      requires source != target && exchange.db == target && exchange.sourceReplicaUid == source.replicaUid
      requires SentThrough(started, i, target.Model(), exchange.seenIds) && source.Model() == started.client
      requires i < |started.session.changes| && c == started.session.changes[i]
      requires started.session.phase == Sending && started.session.unrecorded == None
      modifies exchange`seenIds, target
      ensures source.Model() == old(source.Model())
      ensures r.Ok? ==> SentThrough(started, i + 1, target.Model(), exchange.seenIds)
      ensures r.Err? ==> SendRounds(started, i + 1).session == NO_SESSION
    {
      hide PutDocIfNewer, SendRound;
      SendRoundIsPut(SendRounds(started, i));
      assert SendRounds(started, i + 1) == SendRound(SendRounds(started, i));
      hide SendRounds;
      if c.docId !in source.document {
        return Err(DocumentDoesNotExist);
      }
      var v := source.document[c.docId];
      var doc := new Document(c.docId, Some(v.rev), v.content);
      var state := exchange.InsertDocFromSource(doc, SyncPoint(c.gen, c.transId));
      if state.Err? {
        return Err(state.error);
      }
      return Ok(());
    }

    /** Send every changed document, in the order of the source's log. */
    method SendDocs(exchange: SyncExchange, changes: seq<Change>, ghost started: Link) returns (r: Result<()>)
      requires source != target && exchange.db == target && exchange.sourceReplicaUid == source.replicaUid
      requires exchange.seenIds == map[]
      requires started == Link(target.Model(), source.Model(), started.session, started.skipped)
      requires started.session == NO_SESSION.(phase := Sending, startGen := |source.transactionLog|, changes := changes)
      modifies exchange`seenIds, target
      ensures source.Model() == old(source.Model())
      ensures r.Ok? ==> SentThrough(started, |changes|, target.Model(), exchange.seenIds)
      ensures r.Err? ==> exists k :: 0 < k <= |changes| && SendRounds(started, k).session == NO_SESSION
    {
      hide SentThrough, SendRounds, Changes;
      NothingSent(started);
      for i := 0 to |changes|
        invariant SentThrough(started, i, target.Model(), exchange.seenIds) && source.Model() == started.client
      {
        var sent := SendDoc(exchange, changes[i], started, i);
        if sent.Err? {
          assert SendRounds(started, i + 1).session == NO_SESSION;
          return sent;
        }
      }
      return Ok(());
    }

    /** Insert the next returned document, as the target has it now. */
    method ReceiveDoc(c: Change, ghost found: Link, ghost i: nat) returns (missing: bool, r: Result<()>)
      requires source != target
      requires ReturnedThrough(found, i, source.Model(), numInserted) && target.Model() == found.server
      requires found.session.phase == Receiving && i < |found.session.toReturn| && c == found.session.toReturn[i]
      modifies this`numInserted, source
      ensures target.Model() == old(target.Model())
      ensures missing ==> ReturnRounds(found, i + 1).session == NO_SESSION
      ensures !missing ==> ReturnedThrough(found, i + 1, source.Model(), numInserted) && (r.Err? <==> Raises(found, i))
    {
      hide PutDocIfNewer, AfterPut, ReturnRound;
      ReturnRoundIsPut(ReturnRounds(found, i));
      assert ReturnRounds(found, i + 1) == ReturnRound(ReturnRounds(found, i));
      hide ReturnRounds;
      if c.docId !in target.document {
        return true, Err(DocumentDoesNotExist);
      }
      var v := target.document[c.docId];
      var doc := new Document(c.docId, Some(v.rev), v.content);
      var state := InsertDocFromTarget(doc, SyncPoint(c.gen, c.transId));
      return false, if state.Ok? then Ok(()) else Err(state.error);
    }

    /**
     * Insert every returned document, in the order of the target's log. An insertion that raises
     * does not keep the others from being made; the first error is what the caller hears of.
     */
    method ReceiveDocs(exchange: SyncExchange, ghost found: Link) returns (missing: bool, r: Result<()>)
      requires source != target && exchange.db == target
      requires found == Link(target.Model(), source.Model(), found.session, found.skipped)
      requires found.session.phase == Receiving && found.session.toReturn == exchange.changesToReturn
      requires found.session.returned == [] && found.session.delivered == 0
      requires found.session.numInserted == numInserted
      modifies this`numInserted, source
      ensures target.Model() == old(target.Model())
      ensures missing ==> exists k :: 0 < k <= |found.session.toReturn| && ReturnRounds(found, k).session == NO_SESSION
      ensures !missing ==> ReturnedThrough(found, |found.session.toReturn|, source.Model(), numInserted)
      ensures !missing ==> (r.Ok? <==> forall k :: 0 <= k < |found.session.toReturn| ==> !Raises(found, k))
    {
      hide ReturnedThrough, ReturnRounds, Changes, ToReturn, Raises;
      var changes := exchange.changesToReturn;
      NothingReturned(found, numInserted);
      r := Ok(());
      for i := 0 to |changes|
        invariant ReturnedThrough(found, i, source.Model(), numInserted) && target.Model() == found.server
        invariant r.Ok? <==> forall k :: 0 <= k < i ==> !Raises(found, k)
      {
        var gone, received := ReceiveDoc(changes[i], found, i);
        if gone {
          assert ReturnRounds(found, i + 1).session == NO_SESSION;
          return true, received;
        }
        if r.Ok? {
          r := received;
        }
      }
      return false, r;
    }

    /** Send, find and receive. */
    method ExchangeAll(changes: seq<Change>, lastKnown: SyncPoint, ghost l: Link)
      returns (r: Result<()>, raised: Result<()>, newPoint: SyncPoint)
      requires source != target && numInserted == 0
      requires l == Now() && StartStep(l) != l
      requires changes == Changes(source.transactionLog, KnownByServer(l).gen) && lastKnown == Known(l)
      modifies this`numInserted, source, target
      ensures r.Err? ==> !FullInv(l)
      ensures r.Ok? ==> ReturnedThrough(Found(l), |Found(l).session.toReturn|, source.Model(), numInserted)
      ensures r.Ok? ==> target.Model() == Found(l).server && newPoint == Found(l).session.newPoint
      ensures r.Ok? ==> Found(l).session.phase == Receiving && Found(l).session.gapless == None
      ensures r.Ok? ==> Found(l).session.startGen == old(|source.transactionLog|)
      ensures r.Ok? ==>
        (raised.Ok? <==> forall k :: 0 <= k < |Found(l).session.toReturn| ==> !Raises(Found(l), k))
    {
      hide Changes, ToReturn, FullInv;
      ghost var started := StartStep(l);
      raised, newPoint := Ok(()), lastKnown;
      var exchange := new SyncExchange(target, source.replicaUid, lastKnown.gen);
      var sent := SendDocs(exchange, changes, started);
      if sent.Err? {
        ghost var k :| 0 < k <= |changes| && SendRounds(started, k).session == NO_SESSION;
        AbortedSend(l, k);
        return Err(sent.error), raised, newPoint;
      }
      var newGen := exchange.FindChangesToReturn();
      newPoint := exchange.newPoint;
      ghost var found := Found(l);
      FindAfterSending(started, |changes|, target.Model(), exchange.seenIds);
      hide StartStep, FindStep, SendRounds, SentThrough, ReturnedThrough, Raises, Found;
      var missing, received := ReceiveDocs(exchange, found);
      if missing {
        ghost var k :| 0 < k <= |found.session.toReturn| && ReturnRounds(found, k).session == NO_SESSION;
        AbortedReceive(l, k);
        return Err(DocumentDoesNotExist), raised, newPoint;
      }
      return Ok(()), received, newPoint;
    }

    /** Note how far the target has been taken in, and report the source's own generation. */
    method CompleteSync(startGeneration: nat, newPoint: SyncPoint, ghost l: Link)
      requires source != target && StartStep(l) != l
      requires ReturnedThrough(Found(l), |Found(l).session.toReturn|, source.Model(), numInserted)
      requires target.Model() == Found(l).server && newPoint == Found(l).session.newPoint
      requires Found(l).session.phase == Receiving && Found(l).session.gapless == None
      requires Found(l).session.startGen == startGeneration
      requires skipped == Received(l).skipped
      modifies source`syncLog, target`syncLog
      ensures Now() == FullSync(l).(session := NO_SESSION)
    {
      hide Found, StartStep, CheckGaplessStep, RecordInfoStep, CompleteStep;
      ghost var found, total := Found(l), |Found(l).session.toReturn|;
      CompleteAfterReturning(found, total, source.Model(), numInserted);
      CompletingSkipsNothing(ReturnRounds(found, total));
      hide ReturnRounds, ReturnedThrough;
      ReportAfterCompleting(QuietSync(l));
      source.SetReplicaGenAndTransId(target.replicaUid, newPoint);
      var recorded := RecordSyncInfoWithTheTarget(startGeneration);
    }

    /** Exchanges the documents; if one of those received raised, the sync only goes on when the response had ended. */
    method ExchangeAndComplete(changes: seq<Change>, lastKnown: SyncPoint, myGen: nat, responseEnded: bool, ghost l: Link)
      returns (r: Result<nat>)
      requires source != target && numInserted == 0
      requires l == Now() && StartStep(l) != l && myGen == |source.transactionLog|
      requires changes == Changes(source.transactionLog, KnownByServer(l).gen) && lastKnown == Known(l)
      modifies this, source, target
      ensures r.Ok? ==> r.value == myGen && Now() == FullSync(l).(session := NO_SESSION)
      ensures FullInv(l) ==>
        && (r.Ok? <==> responseEnded || forall k :: 0 <= k < |Found(l).session.toReturn| ==> !Raises(Found(l), k))
        && (r.Err? ==> Now() == Received(l).(session := NO_SESSION))
    {
      hide FullInv, Agree, QuietSync, Changes, Apart, NothingRefused, WillBeSkipped, Found, Received, FullSync;
      hide ReturnedThrough, Raises;
      var exchanged, raised, newPoint := ExchangeAll(changes, lastKnown, l);
      if exchanged.Err? {
        return Err(exchanged.error);
      }
      skipped := Received(l).skipped;
      ReceivedIsShown(l, source.Model(), numInserted);
      if raised.Err? && !responseEnded {
        return Err(raised.error);
      }
      CompleteSync(myGen, newPoint, l);
      return Ok(myGen);
    }

    /**
     * A whole synchronisation. An insertion that raises makes it fail, unless the target's response
     * had ended by then: in that case nobody hears of the error and the sync completes.
     */
    method Sync(responseEnded: bool) returns (r: Result<nat>)
      requires source != target && numInserted == 0
      modifies this, source, target
      ensures r.Ok? ==> r.value == old(|source.transactionLog|)
      ensures r.Ok? ==> Now() == FullSync(old(Now())).(session := NO_SESSION)
      ensures old(FullInv(Now())) ==>
        (r.Ok? <==> StartStep(old(Now())) == old(Now()) || responseEnded || NothingRefused(Found(old(Now()))))
      ensures old(FullInv(Now())) && r.Ok? ==>
        FullInv(Now()) && forall d :: Agree(Now(), d) <==> !WillBeSkipped(Found(old(Now())), d)
      ensures old(FullInv(Now())) && r.Err? ==> FullInv(Now()) && Now() == Received(old(Now())).(session := NO_SESSION)
      ensures old(FullInv(Now()) && Apart(Now())) ==> r.Ok? && forall d :: Agree(Now(), d)
      ensures source.replicaUid == target.replicaUid ==> r == Err(InvalidReplicaUID) && Now() == old(Now())
      // What the target knows of the source must be a row of the source's log.
      ensures var s, p := old(source.transactionLog), old(target.GetReplicaGenAndTransId(source.replicaUid));
        source.replicaUid != target.replicaUid ==>
          && (|s| < p.gen ==> r == Err(InvalidGeneration) && Now() == old(Now()))
          && (0 < p.gen <= |s| && s[p.gen - 1].transId != p.transId ==>
               r == Err(InvalidTransactionId) && Now() == old(Now()))
      // If it is, either there is nothing to exchange, or the source's point must be a row of the target's log.
      ensures var s, p := old(source.transactionLog), old(target.GetReplicaGenAndTransId(source.replicaUid));
        var t, q := old(target.transactionLog), old(source.GetReplicaGenAndTransId(target.replicaUid));
        source.replicaUid != target.replicaUid
          && (p.gen == 0 || (p.gen <= |s| && s[p.gen - 1].transId == p.transId)) ==>
          if |s| <= p.gen && q.gen == |t| then
            && Now() == old(Now())
            && r == if q.transId == (if t == [] then "" else t[|t| - 1].transId) then Ok(|s|) else Err(InvalidTransactionId)
          else
            && (|t| < q.gen ==> r == Err(InvalidGeneration) && Now() == old(Now()))
            && (0 < q.gen <= |t| && t[q.gen - 1].transId != q.transId ==>
                 r == Err(InvalidTransactionId) && Now() == old(Now()))
    {
      ghost var l := Now();
      InvMeansValid(l);
      hide FullInv, Agree, QuietSync, Changes, Apart, NothingRefused, WillBeSkipped, Found, Received, FullSync;
      hide Raises;
      SyncOutcome(l);
      NoChangesExactlyWhen(source.transactionLog, KnownByServer(l).gen);
      var targetMyPoint := target.GetReplicaGenAndTransId(source.replicaUid);
      if target.replicaUid == source.replicaUid {
        return Err(InvalidReplicaUID);
      }
      var invalid := source.ValidateGenAndTransId(targetMyPoint);
      if invalid.Some? {
        return Err(invalid.value);
      }
      var myGen, _, changes := source.WhatsChanged(targetMyPoint.gen);
      var lastKnown := source.GetReplicaGenAndTransId(target.replicaUid);
      var targetGen, targetTransId, _ := target.WhatsChanged(|target.transactionLog|);
      if changes == [] && lastKnown.gen == targetGen {
        if targetTransId != lastKnown.transId {
          return Err(InvalidTransactionId);
        }
        return Ok(myGen);
      }
      invalid := target.ValidateGenAndTransId(lastKnown);
      if invalid.Some? {
        return Err(invalid.value);
      }
      r := ExchangeAndComplete(changes, lastKnown, myGen, responseEnded, l);
    }
  }
}
