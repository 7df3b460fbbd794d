/** What the synchronisation protocol guarantees, in every state it can reach. */
module Guarantees {
  import opened ChangeLog
  import opened Documents
  import opened LinkInvariant
  import opened LinkReceive
  import opened LinkRefusal
  import opened LinkSend
  import opened Links
  import opened Pruning
  import opened Replicas
  import opened Star
  import opened VectorClocks
  import opened Wrappers

  /** Client and server both lack the document, or both have it with the same content or tombstone. */
  predicate Agree(l: Link, d: string) {
    && (d in l.client.docs <==> d in l.server.docs)
    && (d in l.client.docs && d in l.server.docs ==> l.client.docs[d].content == l.server.docs[d].content)
  }

  predicate Lists(cs: seq<Change>, d: string) {
    exists c <- cs :: c.docId == d
  }

  lemma BothSidesKnow(l: Link, d: string)
    requires DocInv(l, d) && CaughtUp(l, d) && NotAhead(l, d)
    ensures Agree(l, d)
  {
    ZeroIsLeast(RevOf(l.client, d));
    ZeroIsLeast(RevOf(l.server, d));
    hide Covers;
  }

  lemma ZeroIsLeast(c: Clock)
    ensures c != ZERO ==> Newer(c, ZERO) && !Covers(ZERO, c)
  {
    if Covers(ZERO, c) {
      CoversAntisymmetric(ZERO, c);
    }
  }

  // ---------- nothing is ever missed ----------

  lemma ListedExactlyIfChanged(log: seq<Entry>, since: nat, d: string)
    ensures Lists(Changes(log, since), d) <==> since < LastGen(log, d)
  {
    ChangesSpec(log, since);
    hide Changes, LastGen;
    if since < LastGen(log, d) {
      ChangedDocIsListed(log, since, d);
      var cs := Changes(log, since);
      assert cs[IndexOf(cs, d)] in cs;
    }
  }

  lemma QuietDoc(l: Link, d: string)
    requires FullInv(l)
    requires LastGen(l.server.log, d) <= Known(l).gen && LastGen(l.client.log, d) <= KnownByServer(l).gen
    ensures Agree(l, d) <==> d !in l.skipped
  {
    FullInvOfDoc(l, d);
    hide FullInv, LastGen, GoodReplica, Counters, SessionDoc, NewsFor, CaughtUp, NotAhead;
    if d !in l.skipped {
      BothSidesKnow(l, d);
    } else {
      assert Reached(l, d) && Handled(l, d);
    }
  }

  /**
   * In every reachable state, after any interleaving and any abandoned sessions: a document that is
   * neither among what the client will send next nor among what the server will return next is the
   * same on both sides exactly when its last delivery to the client was not refused.
   */
  lemma NothingIsMissedExactlyWhen(start: Star, steps: seq<Step>, uid: string, d: string)
    requires Initial(start) && uid in start.clients
    ensures var l := LinkOf(Run(start, steps), uid);
      !Lists(Changes(l.client.log, KnownByServer(l).gen), d) && !Lists(Changes(l.server.log, Known(l).gen), d) ==>
        (Agree(l, d) <==> d !in l.skipped)
  {
    RunKeepsFullInv(start, steps, uid);
    var l := LinkOf(Run(start, steps), uid);
    hide Run, Initial, FullInv, Changes, LastGen;
    ListedExactlyIfChanged(l.client.log, KnownByServer(l).gen, d);
    ListedExactlyIfChanged(l.server.log, Known(l).gen, d);
    if LastGen(l.client.log, d) <= KnownByServer(l).gen && LastGen(l.server.log, d) <= Known(l).gen {
      QuietDoc(l, d);
    }
  }

  /** Which deliveries are refused: the replaced version has the revision of a conflict that stays. */
  lemma SkippedExactlyWhen(l: Link, step: SyncStep, d: string)
    requires FullInv(l)
    ensures var ss := l.session;
      d in Advance(l, step).skipped <==>
        if step == Deliver && AboutToDeliverSome(l) && ss.toReturn[ss.delivered].docId == d then
          Refuses(l.client, d, ss.returned[ss.delivered])
        else d in l.skipped
  {
    hide Refuses, DocInv, RefusalDoc, Changes, ToReturn, Merge, ValidateSource;
    if step == Deliver && AboutToDeliverSome(l) {
      var c := l.session.toReturn[l.session.delivered];
      DeliverIsRefusal(l, c.docId, l.session.returned[l.session.delivered]);
      hide LinkInv, PutDocIfNewer, AfterPut;
    }
  }

  ghost predicate AboutToDeliverSome(l: Link) {
    var ss := l.session;
    ss.phase == Receiving && ss.delivered < |ss.returned| && ss.delivered < |ss.toReturn|
  }

  /**
   * The generation a client has recorded for the server: of a document not logged beyond it, the
   * client has the server's version or a newer one, exactly when the last delivery was not refused.
   */
  lemma RecordedGenerationIsHonestExactlyWhen(start: Star, steps: seq<Step>, uid: string, d: string)
    requires Initial(start) && uid in start.clients
    ensures var l := LinkOf(Run(start, steps), uid);
      LastGen(l.server.log, d) <= Known(l).gen ==> (CaughtUp(l, d) <==> d !in l.skipped)
  {
    RunKeepsFullInv(start, steps, uid);
    var l := LinkOf(Run(start, steps), uid);
    hide Run, Initial;
    FullInvOfDoc(l, d);
    hide FullInv, LastGen, CaughtUp, NotAhead, GoodReplica, Counters, SessionDoc;
    if d in l.skipped {
      NewsIsNotCaughtUp(l, d);
    }
  }

  /** Neither side would refuse the sync points and generations the other one is about to name. */
  ghost predicate PointsAreAccepted(l: Link) {
    var ss := l.session;
    && OnLog(l.server.log, Known(l))
    && OnLog(l.client.log, KnownByServer(l))
    && (ss.phase == Sending && |ss.outcomes| < |ss.changes| ==>
         ValidateSource(l.server, l.client.uid, PointOf(ss.changes[|ss.outcomes|])).None?)
    && (ss.phase == Receiving && ss.delivered < |ss.toReturn| ==>
         ValidateSource(l.client, l.server.uid, PointOf(ss.toReturn[ss.delivered])).None?)
  }

  lemma InvAcceptsPoints(l: Link)
    requires LinkInv(l)
    ensures PointsAreAccepted(l)
  {}

  /** No sync point is ever refused, whatever happened before: both validations pass on both sides. */
  lemma SyncPointsAreAlwaysValid(start: Star, steps: seq<Step>, uid: string)
    requires Initial(start) && uid in start.clients
    ensures PointsAreAccepted(LinkOf(Run(start, steps), uid))
  {
    RunKeepsInv(start, steps);
    InvAcceptsPoints(LinkOf(Run(start, steps), uid));
    hide *;
  }

  // ---------- what is returned ----------

  /**
   * The promises made where an upload is refused: a document answered as superseded or conflicting
   * is among those returned in the same exchange. Only a document whose last delivery was refused
   * and that the server has not logged again is left out.
   */
  lemma RefusedUploadsAreReturnedExactlyWhen(l: Link, k: nat)
    requires LinkInv(l) && FindStep(l) != l
    requires k < |l.session.outcomes| && !Settles(l.session.outcomes[k])
    ensures k < |l.session.changes|
    ensures var d := l.session.changes[k].docId;
      Lists(FindStep(l).session.toReturn, d) <==> d !in l.skipped || LastGen(l.server.log, d) > Known(l).gen
  {
    var d := l.session.changes[k].docId;
    IndexIsUnique(l.session.changes, k);
    assert DocInv(l, d);
    ChangesSpec(l.server.log, Known(l).gen);
    ToReturnSpec(Changes(l.server.log, Known(l).gen), l.session.seenIds);
    hide LastGen, Changes, ToReturn, NotAhead, CaughtUp, GoodUpload, GoodReplica, Counters;
    if LastGen(l.server.log, d) > Known(l).gen {
      UnsettledIsReturned(l, d);
      var rs := FindStep(l).session.toReturn;
      assert rs[IndexOf(rs, d)] in rs;
    }
  }

  /** A document taken in or already equal is returned exactly if it was logged again after that answer. */
  lemma SettledUploadsAreReturnedExactlyWhen(l: Link, k: nat)
    requires LinkInv(l) && FindStep(l) != l
    requires k < |l.session.outcomes| && Settles(l.session.outcomes[k])
    ensures k < |l.session.changes|
    ensures var d := l.session.changes[k].docId;
      && d in l.session.seenIds
      && (Lists(FindStep(l).session.toReturn, d) <==>
           l.session.seenIds[d] < LastGen(l.server.log, d) && Known(l).gen < LastGen(l.server.log, d))
  {
    var d := l.session.changes[k].docId;
    IndexIsUnique(l.session.changes, k);
    assert DocInv(l, d);
    ChangesSpec(l.server.log, Known(l).gen);
    ToReturnSpec(Changes(l.server.log, Known(l).gen), l.session.seenIds);
    hide LastGen, Changes, ToReturn, NotAhead, CaughtUp, GoodUpload, GoodReplica, Counters;
    var g := LastGen(l.server.log, d);
    if l.session.seenIds[d] < g && Known(l).gen < g {
      UnsettledIsReturned(l, d);
      var rs := FindStep(l).session.toReturn;
      assert rs[IndexOf(rs, d)] in rs;
    }
  }

  lemma FullInvGivesLinkInv(l: Link)
    requires FullInv(l)
    ensures LinkInv(l)
  {}

  /**
   * Both promises in every run: what is refused is returned in the same exchange, with the exception
   * above, and what is not refused is returned exactly if it was logged again.
   */
  lemma AnswersAreKept(start: Star, steps: seq<Step>, uid: string, k: nat)
    requires Initial(start) && uid in start.clients
    ensures var l := LinkOf(Run(start, steps), uid);
      FindStep(l) != l && k < |l.session.outcomes| ==>
        && k < |l.session.changes|
        && var d := l.session.changes[k].docId;
          if !Settles(l.session.outcomes[k]) then
            Lists(FindStep(l).session.toReturn, d) <==> d !in l.skipped || LastGen(l.server.log, d) > Known(l).gen
          else
            && d in l.session.seenIds
            && (Lists(FindStep(l).session.toReturn, d) <==>
                 l.session.seenIds[d] < LastGen(l.server.log, d) && Known(l).gen < LastGen(l.server.log, d))
  {
    hide FullInv, Run, FindStep, Lists, LastGen, Settles;
    RunKeepsFullInv(start, steps, uid);
    var l := LinkOf(Run(start, steps), uid);
    FullInvGivesLinkInv(l);
    hide LinkInv;
    if FindStep(l) != l && k < |l.session.outcomes| {
      if Settles(l.session.outcomes[k]) {
        SettledUploadsAreReturnedExactlyWhen(l, k);
      } else {
        RefusedUploadsAreReturnedExactlyWhen(l, k);
      }
    }
  }

  // ---------- a completed sync ----------

  /**
   * When a session completes, and the server was not written since it computed what to return, and
   * the client's log grew by this session's insertions only, they agree on every document but those
   * whose delivery was refused. Other clients may have written at will until the server was asked.
   */
  lemma CompletedSyncAgreesExactlyWhen(l: Link, d: string)
    requires FullInv(l) && CompleteStep(l) != l
    requires |l.server.log| == l.session.newPoint.gen
    requires |l.client.log| == l.session.startGen + l.session.numLogged
    ensures Agree(CompleteStep(l), d) <==> d !in l.skipped
  {
    FullInvOfDoc(l, d);
    hide FullInv, LastGen, CaughtUp, NotAhead, GoodReplica, Counters, GoodDownload, NewsFor;
    assert Agree(CompleteStep(l), d) == Agree(l, d);
    assert !Pending(l.session, d);
    if d !in l.skipped {
      BothSidesKnow(l, d);
    } else {
      assert Reached(l, d) && Handled(l, d);
    }
  }

  ghost function SendRound(l: Link): Link {
    RecordStep(InsertStep(SendStep(l)))
  }

  ghost function SendRounds(l: Link, n: nat): Link {
    if n == 0 then l else SendRound(SendRounds(l, n - 1))
  }

  ghost function ReturnRound(l: Link): Link {
    DeliverStep(ReturnStep(l))
  }

  ghost function ReturnRounds(l: Link, n: nat): Link {
    if n == 0 then l else ReturnRound(ReturnRounds(l, n - 1))
  }

  /** A sync in which nobody else writes, up to where the server has found what to return. */
  ghost function Found(l: Link): Link {
    FindStep(SendRounds(StartStep(l), |StartStep(l).session.changes|))
  }

  /** A whole sync in which nobody else writes. */
  ghost function QuietSync(l: Link): Link {
    CompleteStep(ReturnRounds(Found(l), |Found(l).session.toReturn|))
  }

  lemma ServerTakesAnyUpload(l: Link)
    requires LinkInv(l) && l.session.phase == Sending && |l.session.outcomes| < |l.session.sent|
    ensures var n, ss := InsertStep(l), l.session;
      && n.client == l.client && n.skipped == l.skipped
      && n.session.phase == Sending && n.session.changes == ss.changes && n.session.startGen == ss.startGen
      && n.session.sent == ss.sent && |n.session.outcomes| == |ss.outcomes| + 1
  {
    UploadIsGood(l);
    var c := l.session.changes[|l.session.outcomes|];
    assert Newer(l.session.sent[|l.session.outcomes|].rev, ZERO);
  }

  lemma ClientReadsAnyChange(l: Link)
    requires LinkInv(l) && l.session.phase == Sending && |l.session.sent| < |l.session.changes|
    ensures SendStep(l).client == l.client && SendStep(l).skipped == l.skipped
    ensures var n, ss := SendStep(l), l.session;
      && n.session.phase == Sending && n.session.changes == ss.changes && n.session.startGen == ss.startGen
      && |n.session.sent| == |ss.sent| + 1 && n.session.outcomes == ss.outcomes
  {
    var c := l.session.changes[|l.session.sent|];
    assert DocInv(l, c.docId);
    assert LoggedChange(l.client.log, c);
    LoggedDocExists(l.client, c);
  }

  ghost predicate SentSoFar(l: Link, start: Link, k: nat) {
    && FullInv(l)
    && l.server.uid == start.server.uid && l.client == start.client
    && l.skipped == start.skipped
    && l.session.phase == Sending
    && l.session.changes == start.session.changes
    && l.session.startGen == start.session.startGen
    && |l.session.sent| == |l.session.outcomes| == k
  }

  lemma RecordOnlyRecords(l: Link)
    ensures var n := RecordStep(l);
      && n.client == l.client && n.skipped == l.skipped
      && n.session == l.session.(unrecorded := n.session.unrecorded)
  {}

  lemma SendRoundSucceeds(l: Link, start: Link, k: nat)
    requires SentSoFar(l, start, k) && k < |start.session.changes|
    ensures SentSoFar(SendRound(l), start, k + 1)
  {
    hide FullInv, LinkInv, SendStep, InsertStep, RecordStep;
    FullInvGivesLinkInv(l);
    ClientReadsAnyChange(l);
    AdvanceKeepsFullInv(l, Send);
    FullInvGivesLinkInv(SendStep(l));
    ServerTakesAnyUpload(SendStep(l));
    AdvanceKeepsFullInv(SendStep(l), Insert);
    AdvanceKeepsFullInv(InsertStep(SendStep(l)), Record);
    RecordOnlyRecords(InsertStep(SendStep(l)));
    AdvanceKeepsUids(l, Send);
    AdvanceKeepsUids(SendStep(l), Insert);
    AdvanceKeepsUids(InsertStep(SendStep(l)), Record);
  }

  lemma {:induction false} SendRoundsSucceed(start: Link, k: nat)
    requires SentSoFar(start, start, 0) && k <= |start.session.changes|
    ensures SentSoFar(SendRounds(start, k), start, k)
  {
    hide SentSoFar, SendRound;
    if k > 0 {
      SendRoundsSucceed(start, k - 1);
      SendRoundSucceeds(SendRounds(start, k - 1), start, k - 1);
    }
  }

  ghost predicate ReceivedSoFar(l: Link, start: Link, k: nat) {
    && FullInv(l)
    && l.server == start.server && l.client.uid == start.client.uid
    && l.session.phase == Receiving
    && l.session.toReturn == start.session.toReturn
    && l.session.newPoint == start.session.newPoint
    && l.session.startGen == start.session.startGen
    && |l.session.returned| == l.session.delivered == k
    && |l.client.log| == l.session.startGen + l.session.numLogged
  }

  /**
   * One document during the receiving rounds: untouched until its turn, and skipped exactly when the
   * state before receiving says that its delivery will be refused.
   */
  ghost predicate Fate(l: Link, start: Link, k: nat, d: string) {
    if IndexOf(start.session.toReturn, d) < k then
      && d in start.server.docs
      && (d in l.skipped <==> Refuses(start.client, d, start.server.docs[d]))
    else
      && (d in l.skipped <==> d in start.skipped)
      && (d in l.client.docs <==> d in start.client.docs)
      && (d in l.client.docs ==> l.client.docs[d] == start.client.docs[d])
      && ConflictsOf(l.client, d) == ConflictsOf(start.client, d)
  }

  lemma ServerReadsAnyChange(l: Link)
    requires LinkInv(l) && l.session.phase == Receiving && |l.session.returned| < |l.session.toReturn|
    ensures l.session.toReturn[|l.session.returned|].docId in l.server.docs
    ensures ReturnStep(l).session != NO_SESSION
  {
    var c := l.session.toReturn[|l.session.returned|];
    assert DocInv(l, c.docId);
    assert LoggedChange(l.server.log, c);
    LoggedDocExists(l.server, c);
  }

  lemma PutCountsItsLog(r: Replica, d: string, v: Version, source: string, p: SyncPoint)
    ensures var t := AfterPut(r, d, v, true, source, p);
      t.uid == r.uid && (|t.log| == |r.log| || |t.log| == |r.log| + 1)
  {
    hide Prune, Newer, Join, Increment, WithConflicts;
    if Merge(r, d, v, true).Ok? {
      CountedIsLogged(r, d, v);
    }
  }

  lemma DeliverCountsItsLog(l: Link)
    requires AboutToDeliverSome(l)
    ensures var n, ss := DeliverStep(l), l.session;
      && n.server == l.server && n.client.uid == l.client.uid
      && n.session == ss.(delivered := ss.delivered + 1, numInserted := n.session.numInserted,
                          numLogged := n.session.numLogged)
      && |n.client.log| - n.session.numLogged == |l.client.log| - ss.numLogged
  {
    hide PutDocIfNewer, AfterPut;
    var ss := l.session;
    PutCountsItsLog(l.client, ss.toReturn[ss.delivered].docId, ss.returned[ss.delivered], l.server.uid,
                    PointOf(ss.toReturn[ss.delivered]));
  }

  lemma ReturnRoundGoes(a: Link, start: Link, k: nat)
    requires ReceivedSoFar(a, start, k) && k < |start.session.toReturn|
    ensures ReceivedSoFar(ReturnRound(a), start, k + 1)
  {
    hide LinkInv, DeliverStep, RefusalDoc;
    ServerReadsAnyChange(a);
    AdvanceKeepsFullInv(a, SyncStep.Return);
    DeliverCountsItsLog(ReturnStep(a));
    AdvanceKeepsFullInv(ReturnStep(a), Deliver);
    hide FullInv;
  }

  lemma {:induction false} ReturnRoundsGo(start: Link, k: nat)
    requires ReceivedSoFar(start, start, 0) && k <= |start.session.toReturn|
    ensures ReceivedSoFar(ReturnRounds(start, k), start, k)
  {
    hide ReceivedSoFar, ReturnRound;
    if k > 0 {
      ReturnRoundsGo(start, k - 1);
      ReturnRoundGoes(ReturnRounds(start, k - 1), start, k - 1);
    }
  }

  lemma RefusesLooksAt(r: Replica, s: Replica, d: string, v: Version)
    requires r.uid == s.uid && ConflictsOf(r, d) == ConflictsOf(s, d)
    requires (d in r.docs <==> d in s.docs) && (d in r.docs ==> r.docs[d] == s.docs[d])
    ensures Refuses(r, d, v) == Refuses(s, d, v)
  {}

  lemma FateOfDelivered(a: Link, start: Link, k: nat, d: string)
    requires ReceivedSoFar(a, start, k) && Fate(a, start, k, d)
    requires k < |start.session.toReturn| && d == start.session.toReturn[k].docId
    ensures Fate(ReturnRound(a), start, k + 1, d)
  {
    hide Refuses, DeliverStep, RefusalDoc, DocInv;
    ServerReadsAnyChange(a);
    AdvanceKeepsFullInv(a, SyncStep.Return);
    IndexIsUnique(start.session.toReturn, k);
    var mid := ReturnStep(a);
    SkippedExactlyWhen(mid, Deliver, d);
    hide FullInv;
    RefusesLooksAt(a.client, start.client, d, start.server.docs[d]);
  }

  lemma FateOfOthers(a: Link, start: Link, k: nat, d: string)
    requires ReceivedSoFar(a, start, k) && Fate(a, start, k, d)
    requires k < |start.session.toReturn| && d != start.session.toReturn[k].docId
    ensures Fate(ReturnRound(a), start, k + 1, d)
  {
    hide Refuses, RefusalDoc, DocInv, PutDocIfNewer, AfterPut;
    ServerReadsAnyChange(a);
    var mid, c := ReturnStep(a), a.session.toReturn[k];
    AfterPutFrame(a.client, c.docId, mid.session.returned[k], true, a.server.uid, PointOf(c));
    hide FullInv;
    SameElsewhere(a.client, AfterPut(a.client, c.docId, mid.session.returned[k], true, a.server.uid, PointOf(c)),
                  c.docId, d);
    assert IndexOf(start.session.toReturn, d) != k;
  }

  lemma {:induction false} FateIsDecided(start: Link, k: nat, d: string)
    requires ReceivedSoFar(start, start, 0) && k <= |start.session.toReturn|
    ensures Fate(ReturnRounds(start, k), start, k, d)
  {
    hide ReceivedSoFar, ReturnRound, Refuses, FullInv;
    if k > 0 {
      FateIsDecided(start, k - 1, d);
      ReturnRoundsGo(start, k - 1);
      hide Fate;
      if d == start.session.toReturn[k - 1].docId {
        FateOfDelivered(ReturnRounds(start, k - 1), start, k - 1, d);
      } else {
        FateOfOthers(ReturnRounds(start, k - 1), start, k - 1, d);
      }
    }
  }

  ghost predicate IsListed(cs: seq<Change>, d: string) {
    IndexOf(cs, d) < |cs|
  }

  /** Whether this delivery will be refused, judged before any delivery is made. */
  ghost predicate WillBeSkipped(found: Link, d: string) {
    if IsListed(found.session.toReturn, d) then
      d in found.server.docs && Refuses(found.client, d, found.server.docs[d])
    else d in found.skipped
  }

  lemma StartIsReady(l: Link)
    requires FullInv(l) && l.session == NO_SESSION && StartStep(l) != l
    ensures var started := StartStep(l);
      SentSoFar(started, started, 0) && started.client == l.client && started.skipped == l.skipped
      && started.session.startGen == |l.client.log|
  {
    AdvanceKeepsFullInv(l, SyncStep.Start);
    hide FullInv, Changes;
  }

  lemma FindIsReady(sent: Link, l: Link)
    requires FullInv(sent) && sent.session.phase == Sending && |sent.session.outcomes| == |sent.session.changes|
    requires sent.client == l.client && sent.skipped == l.skipped && sent.session.startGen == |l.client.log|
    ensures var found := FindStep(sent);
      && ReceivedSoFar(found, found, 0)
      && found.client == l.client && found.skipped == l.skipped
      && |found.server.log| == found.session.newPoint.gen
  {
    hide FullInv, Changes, ToReturn;
    assert FindStep(sent) == Advance(sent, Find);
    AdvanceKeepsFullInv(sent, Find);
    SentShape(sent);
  }

  lemma FoundIsReady(l: Link)
    requires FullInv(l) && l.session == NO_SESSION && StartStep(l) != l
    ensures var found := Found(l);
      && ReceivedSoFar(found, found, 0)
      && found.client == l.client && found.skipped == l.skipped
      && |found.server.log| == found.session.newPoint.gen
  {
    hide FullInv, StartStep, FindStep, ReceivedSoFar, SendRounds;
    StartIsReady(l);
    var started := StartStep(l);
    SendRoundsSucceed(started, |started.session.changes|);
    FindIsReady(SendRounds(started, |started.session.changes|), l);
  }

  lemma SentShape(l: Link)
    requires FullInv(l) && l.session.phase == Sending
    ensures l.session.returned == [] && l.session.delivered == 0 && l.session.numLogged == 0
  {}

  lemma ReceivedIsFinished(l: Link, start: Link)
    requires ReceivedSoFar(l, start, |start.session.toReturn|)
    ensures CompleteStep(l) != l && CompleteStep(l).session.phase == Finished && CompleteStep(l).skipped == l.skipped
  {
    hide FullInv;
  }

  /**
   * From every reachable state, a sync nobody interferes with ends with client and server agreeing on
   * a document exactly when the state before receiving does not say that it will be skipped.
   */
  lemma QuietSyncAgreesExactlyWhen(l: Link, d: string)
    requires FullInv(l) && l.session == NO_SESSION
    ensures StartStep(l) == l || QuietSync(l).session.phase == Finished
    ensures Found(l).client == l.client
    ensures Agree(QuietSync(l), d) <==> !WillBeSkipped(Found(l), d)
    ensures d in QuietSync(l).skipped <==> WillBeSkipped(Found(l), d)
  {
    if StartStep(l) == l {
      NothingToExchange(l, d);
    } else {
      FoundIsReady(l);
      hide StartStep, Found, Refuses, FullInv, CompleteStep;
      var found := Found(l);
      var total := |found.session.toReturn|;
      ReturnRoundsGo(found, total);
      FateIsDecided(found, total, d);
      var received := ReturnRounds(found, total);
      ReceivedIsFinished(received, found);
      hide ReturnRounds, Agree;
      CompletedSyncAgreesExactlyWhen(received, d);
    }
  }

  /** Whatever happened before, one undisturbed sync brings client and server together on this condition. */
  lemma ConvergesAfterAnyRunExactlyWhen(start: Star, steps: seq<Step>, uid: string, d: string)
    requires Initial(start) && uid in start.clients
    ensures var l := LinkOf(Run(start, steps), uid).(session := NO_SESSION);
      Agree(QuietSync(l), d) <==> !WillBeSkipped(Found(l), d)
  {
    hide FullInv, Run, QuietSync, Found, WillBeSkipped, Agree, StartStep;
    RunKeepsFullInv(start, steps, uid);
    var l := LinkOf(Run(start, steps), uid);
    AdvanceKeepsFullInv(l, Abort);
    AbortDropsSession(l);
    QuietSyncAgreesExactlyWhen(l.(session := NO_SESSION), d);
  }

  lemma AbortDropsSession(l: Link)
    ensures Advance(l, Abort) == l.(session := NO_SESSION)
  {}

  lemma NothingToExchange(l: Link, d: string)
    requires FullInv(l) && l.session == NO_SESSION && StartStep(l) == l
    ensures QuietSync(l) == l && Found(l) == l && l.session.toReturn == []
    ensures Agree(l, d) <==> d !in l.skipped
  {
    assert Shape(l);
    hide FullInv, DocInv, LastGen, GoodChanges;
    if LastGen(l.client.log, d) > KnownByServer(l).gen {
      ChangedDocIsListed(l.client.log, KnownByServer(l).gen, d);
    }
    hide Shape, Changes;
    assert LastGen(l.server.log, d) <= Known(l).gen;
    QuietDoc(l, d);
  }

  lemma InsertLeavesOthers(l: Link, d: string)
    requires l.session.phase == Sending && |l.session.outcomes| < |l.session.changes|
    requires l.session.changes[|l.session.outcomes|].docId != d
    ensures LastGen(InsertStep(l).server.log, d) == LastGen(l.server.log, d)
  {
    hide Prune, Newer, Join, Increment, LastGen, ValidateSource;
    var n, ss := InsertStep(l), l.session;
    if n.server.log != l.server.log {
      var e := Entry(ss.changes[|ss.outcomes|].docId, l.server.ids(|l.server.log| + 1));
      assert n.server.log == l.server.log + [e];
      LastGenAppend(l.server.log, e, d);
    }
  }

  lemma SendRoundLeaves(l: Link, start: Link, k: nat, d: string)
    requires SentSoFar(l, start, k) && k < |start.session.changes| && start.session.changes[k].docId != d
    ensures LastGen(SendRound(l).server.log, d) == LastGen(l.server.log, d)
  {
    hide FullInv, LinkInv, SendStep, InsertStep, LastGen;
    FullInvGivesLinkInv(l);
    ClientReadsAnyChange(l);
    SendLeavesServer(l);
    InsertLeavesOthers(SendStep(l), d);
  }

  lemma SendLeavesServer(l: Link)
    ensures SendStep(l).server == l.server
  {}

  lemma {:induction false} SendRoundsLeave(start: Link, k: nat, d: string)
    requires SentSoFar(start, start, 0) && k <= |start.session.changes|
    requires forall c <- start.session.changes :: c.docId != d
    ensures LastGen(SendRounds(start, k).server.log, d) == LastGen(start.server.log, d)
  {
    hide SentSoFar, SendRound, LastGen;
    if k > 0 {
      SendRoundsLeave(start, k - 1, d);
      SendRoundsSucceed(start, k - 1);
      SendRoundLeaves(SendRounds(start, k - 1), start, k - 1, d);
    }
  }

  lemma UnchangedIsNotSent(l: Link, d: string)
    requires StartStep(l) != l && LastGen(l.client.log, d) <= KnownByServer(l).gen
    ensures forall c <- StartStep(l).session.changes :: c.docId != d
    ensures StartStep(l).server == l.server
  {
    ChangesSpec(l.client.log, KnownByServer(l).gen);
    hide LastGen, Changes;
  }

  lemma UnchangedIsNotFound(l: Link, d: string)
    requires FullInv(l) && l.session.phase == Sending && |l.session.outcomes| == |l.session.changes|
    requires LastGen(l.server.log, d) <= Known(l).gen
    ensures !IsListed(FindStep(l).session.toReturn, d)
  {
    FoundEntry(l, d);
    SentShape(l);
    hide FullInv, LastGen, Changes, ToReturn;
  }

  /**
   * Once refused and no longer listed, a document stays different: no later sync makes up for it
   * until one of the two sides writes it again.
   */
  lemma RefusedStaysDifferent(l: Link, d: string)
    requires FullInv(l) && l.session == NO_SESSION && d in l.skipped
    requires LastGen(l.server.log, d) <= Known(l).gen && LastGen(l.client.log, d) <= KnownByServer(l).gen
    ensures !Agree(QuietSync(l), d)
  {
    hide FullInv, StartStep, SendRounds, FindStep, QuietSync, LastGen, Agree;
    QuietSyncAgreesExactlyWhen(l, d);
    if StartStep(l) == l {
      NothingToExchange(l, d);
    } else {
      var started := StartStep(l);
      var total := |started.session.changes|;
      StartIsReady(l);
      UnchangedIsNotSent(l, d);
      SendRoundsLeave(started, total, d);
      SendRoundsSucceed(started, total);
      UnchangedIsNotFound(SendRounds(started, total), d);
      FoundIsReady(l);
    }
  }

  // ---------- the gapless rule ----------

  /** Rows of the client's log since the start that no insertion of this session wrote. */
  ghost function OutsideWrites(l: Link): int {
    |l.client.log| - l.session.startGen - l.session.numLogged
  }

  /** A session in progress never changes that number. */
  lemma SessionWritesNothingOutside(l: Link, step: SyncStep)
    requires LinkInv(l) && l.session.phase != Idle && step != Start
    ensures Advance(l, step).session != NO_SESSION ==> OutsideWrites(Advance(l, step)) == OutsideWrites(l)
  {
    if step == Deliver {
      if l.session.phase == Receiving && l.session.delivered < |l.session.returned| {
        DeliverCountsItsLog(l);
      }
    }
  }

  /** A local write that logs adds one to it. */
  lemma LocalWritesAreOutside(l: Link, a: LocalAction)
    requires Perform(l.client, a).Ok?
    ensures var n := l.(client := Perform(l.client, a).value);
      OutsideWrites(n) == OutsideWrites(l) + (if a.Resolve? && RevOf(l.client, a.docId) !in a.revs then 0 else 1)
  {
    hide MaximalRev, Revs, Without;
  }

  /**
   * When the source reports its generation, every row it logged since the start was an insertion
   * of this exchange that counts, and no document needs to go back to the target.
   */
  lemma GaplessIsHonest(l: Link, d: string)
    requires LinkInv(l) && l.session.phase == Finished
    requires CheckGaplessStep(l).session.gapless.Some?
    requires l.session.gapless.None?
    ensures OutsideWrites(l) == 0 && l.session.numLogged == l.session.numInserted
    ensures CheckGaplessStep(l).session.gapless == Some(Tip(l.client.log))
    ensures NotAhead(l, d)
  {
    assert DocInv(l, d);
  }

  /**
   * An insertion counted as such can still leave the source with a strictly newer revision than
   * the target's. It does so exactly when the incoming document conflicts and says the same as a
   * conflict the source already holds; the content is the target's all the same.
   */
  lemma CountedInsertionIsNewerExactlyWhen(r: Replica, d: string, v: Version)
    requires Merge(r, d, v, true).Ok?
    requires Merge(r, d, v, true).value.outcome in {Inserted, ConflictFound}
    ensures var t := Merge(r, d, v, true).value;
      && d in t.replica.docs && t.replica.docs[d].content == v.content
      && (Newer(t.replica.docs[d].rev, v.rev) <==>
           && t.outcome == ConflictFound
           && exists c <- ConflictsOf(r, d) :: c.content == v.content && !Newer(v.rev, c.rev))
  {
    PruneIsSafe(r.uid, v, ConflictsOf(r, d));
    AutoresolvesExactlyWhen(v, ConflictsOf(r, d));
  }
}
