/** The sending half of a session keeps the link invariant. */
module LinkSend {
  import opened ChangeLog
  import opened Documents
  import opened LinkClient
  import opened LinkInvariant
  import opened LinkRely
  import opened Links
  import opened Pruning
  import opened Replicas
  import opened VectorClocks
  import opened Wrappers

  lemma AbortKeepsInv(l: Link)
    requires LinkInv(l)
    ensures LinkInv(l.(session := NO_SESSION))
  {
    forall d: string ensures DocInv(l.(session := NO_SESSION), d) {
      assert DocInv(l, d);
      var n := l.(session := NO_SESSION);
      assert CaughtUp(n, d) == CaughtUp(l, d) && NotAhead(n, d) == NotAhead(l, d);
    }
  }

  /** Only the session changed; for each document its part has to be shown. */
  lemma SessionChangeKeepsDoc(l: Link, ss: Session, d: string)
    requires DocInv(l, d) && SessionDoc(l.(session := ss), d)
    ensures DocInv(l.(session := ss), d)
  {
    var n := l.(session := ss);
    assert CaughtUp(n, d) == CaughtUp(l, d) && NotAhead(n, d) == NotAhead(l, d);
  }

  // ---------- starting ----------

  lemma StartKeepsInv(l: Link)
    requires LinkInv(l)
    ensures LinkInv(StartStep(l))
  {
    var n := StartStep(l);
    if n != l {
      var h := KnownByServer(l).gen;
      ChangesSpec(l.client.log, h);
      assert GoodChanges(l.client.log, n.session.changes) by {
        forall c <- n.session.changes ensures LoggedChange(l.client.log, c) {}
      }
      forall d: string ensures DocInv(n, d) {
        assert DocInv(l, d);
        assert NotAhead(n, d) == NotAhead(l, d);
        if h < LastGen(l.client.log, d) {
          ChangedDocIsListed(l.client.log, h, d);
        }
        SessionChangeKeepsDoc(l, n.session, d);
      }
    }
  }

  // ---------- reading at the client ----------

  lemma LoggedDocExists(r: Replica, c: Change)
    requires GoodReplica(r, c.docId) && LoggedChange(r.log, c)
    ensures c.docId in r.docs && c.gen <= LastGen(r.log, c.docId)
  {}

  lemma SendKeepsDoc(l: Link, d: string)
    requires Shape(l) && DocInv(l, d) && SendStep(l) != l && SendStep(l).session.phase == Sending
    ensures DocInv(SendStep(l), d)
  {
    hide CaughtUp, NotAhead, GoodUpload, LastGen, GoodReplica, Counters;
    var n := SendStep(l);
    SessionDoesNotShow(l, n.session, d);
    if IndexOf(l.session.changes, d) == |l.session.sent| {
      CurrentIsGoodUpload(l, d);
    }
    SessionChangeKeepsDoc(l, n.session, d);
  }

  lemma CurrentIsGoodUpload(l: Link, d: string)
    requires DocInv(l, d) && d in l.client.docs
    ensures GoodUpload(l, d, l.client.docs[d])
  {
    hide Newer, Foreign, LastGen, SessionDoc;
    assert l.client.docs[d] in Held(l.client, d);
  }

  lemma SendKeepsInv(l: Link)
    requires LinkInv(l)
    ensures LinkInv(SendStep(l))
  {
    var n := SendStep(l);
    if n.session == NO_SESSION {
      AbortKeepsInv(l);
    } else if n != l {
      forall d: string ensures DocInv(n, d) {
        assert DocInv(l, d);
        SendKeepsDoc(l, d);
      }
    }
  }

  // ---------- the server's answer ----------

  lemma ServerHasNothingToPrune(r: Replica, d: string, v: Version)
    requires r.conflicts == map[]
    ensures Prune(r.uid, v, ConflictsOf(r, d)) == Pruned(v, [], false)
  {}

  /** What the server did with an upload. */
  ghost predicate Answered(l: Link, d: string, x: Version, o: Outcome, t: Replica) {
    && t.uid == l.server.uid && t.conflicts == map[] && t.known == l.server.known
    && (t != l.server ==>
         && (exists e: Entry :: e.docId == d && t.log == l.server.log + [e])
         && d in t.docs
         && t.docs == l.server.docs[d := t.docs[d]]
         && GoodVersion(t.docs[d])
         && Newer(t.docs[d].rev, RevOf(l.server, d)))
    && match o
       case Inserted => t != l.server && t.docs[d] == x
       case Converged => t == l.server && RevOf(t, d) == x.rev
       case Superseded =>
         if t == l.server then Newer(RevOf(t, d), x.rev)
         else && t.docs[d].content == x.content
              && Newer(t.docs[d].rev, x.rev)
              && t.docs[d].rev == Increment(Join(x.rev, RevOf(l.server, d)), l.server.uid)
              && !Covers(x.rev, RevOf(l.server, d))
       case ConflictFound =>
         && t == l.server && !Covers(x.rev, RevOf(t, d)) && !Covers(RevOf(t, d), x.rev)
         && d in t.docs && t.docs[d].content != x.content
  }

  lemma LogGrew(a: Replica, b: Replica)
    requires |a.log| != |b.log|
    ensures a != b
  {}

  lemma MergeIsAnswered(l: Link, d: string, x: Version)
    requires l.server.conflicts == map[] && GoodVersion(x)
    requires d in l.server.docs ==> GoodVersion(l.server.docs[d])
    requires Merge(l.server, d, x, false).Ok?
    ensures var t := Merge(l.server, d, x, false).value; Answered(l, d, x, t.outcome, t.replica)
  {
    var r := l.server;
    var t := Merge(r, d, x, false).value;
    var s := RevOf(r, d);
    ServerHasNothingToPrune(r, d, x);
    if Newer(x.rev, s) {
      assert t.replica.log == r.log + [Entry(d, r.ids(|r.log| + 1))];
      LogGrew(t.replica, r);
    } else if x.rev == s || Newer(s, x.rev) {
    } else if r.docs[d].content == x.content {
      var j := Join(x.rev, s);
      JoinIsLeastUpperBound(x.rev, s, j);
      IncrementIsNewer(j, r.uid);
      NewerIsStrictOrder(Increment(j, r.uid), j, x.rev);
      NewerIsStrictOrder(Increment(j, r.uid), j, s);
      PositiveIsKept(x.rev, s, r.uid);
      PositiveIsKept(j, j, r.uid);
      assert r.uid in Increment(j, r.uid);
      assert t.replica.log == r.log + [Entry(d, r.ids(|r.log| + 1))];
      LogGrew(t.replica, r);
    }
  }

  ghost predicate AboutToAnswer(l: Link, d: string, x: Version) {
    var ss := l.session;
    var k := |ss.outcomes|;
    && ss.phase == Sending
    && k < |ss.sent| && k < |ss.changes|
    && ss.changes[k].docId == d && ss.sent[k] == x
  }

  ghost function AfterAnswer(l: Link, d: string, o: Outcome, t: Replica): Link {
    var ss := l.session;
    l.(server := t, session := ss.(
      outcomes := ss.outcomes + [o],
      seenIds := if Settles(o) then ss.seenIds[d := |t.log|] else ss.seenIds,
      unrecorded := if |ss.outcomes| < |ss.changes| then Some(PointOf(ss.changes[|ss.outcomes|])) else None))
  }

  /** A merged version has a server counter the client cannot have. */
  lemma MergedIsNews(l: Link, d: string, x: Version)
    requires l.server.uid != l.client.uid
    requires DocInv(l, d) && GoodUpload(l, d, x)
    ensures var w := Increment(Join(x.rev, RevOf(l.server, d)), l.server.uid);
      && (forall v <- Held(l.client, d) :: !Covers(v.rev, w))
      && Count(w, l.client.uid) <= Count(RevOf(l.client, d), l.client.uid)
  {
    var s, own := RevOf(l.server, d), l.client.uid;
    var j := Join(x.rev, s);
    var w := Increment(j, l.server.uid);
    JoinIsLeastUpperBound(x.rev, s, j);
    IncrementIsNewer(j, l.server.uid);
    var k := l.server.uid;
    assert k in w && k != own && (k in s ==> s[k] < w[k]);
    forall v <- Held(l.client, d) ensures !Covers(v.rev, w) {
      ForeignDoesNotCover(own, v.rev, s, w);
    }
    CountGrows(l.client.docs[d].rev, x.rev, own);
    assert l.client.docs[d] in Held(l.client, d);
  }

  lemma AnsweredDocBasics(l: Link, d: string, x: Version, o: Outcome, t: Replica)
    requires Shape(l) && DocInv(l, d) && GoodUpload(l, d, x) && AboutToAnswer(l, d, x) && Answered(l, d, x, o, t)
    ensures var n := l.(server := t); GoodReplica(t, d) && Counters(n, d)
  {
    if t != l.server {
      var e: Entry :| e.docId == d && t.log == l.server.log + [e];
      LastGenAppend(l.server.log, e, d);
      assert l.client.docs[d] in Held(l.client, d);
      forall v <- Held(l.client, d) ensures Foreign(l.client.uid, v.rev, t.docs[d].rev) {
        ExplainedGrows(l.client.uid, v.rev, RevOf(l.server, d), t.docs[d].rev);
      }
      if o == Inserted {
        CountGrows(l.client.docs[d].rev, x.rev, l.client.uid);
      } else {
        MergedIsNews(l, d, x);
      }
    }
  }

  /** The four answers leave the client not ahead, if it has not changed the document meanwhile. */
  lemma AnsweredIsNotAhead(l: Link, d: string, x: Version, o: Outcome, t: Replica)
    requires Shape(l) && DocInv(l, d) && GoodUpload(l, d, x) && AboutToAnswer(l, d, x) && Answered(l, d, x, o, t)
    requires LastGen(l.client.log, d) <= l.session.startGen
    ensures NotAhead(l.(server := t), d)
  {
    IndexIsUnique(l.session.changes, |l.session.outcomes|);
    assert x == l.client.docs[d];
    NewerIsStrictOrder(RevOf(t, d), x.rev, x.rev);
    if o == Superseded && t != l.server {
      assert l.client.docs[d] in Held(l.client, d);
      MergedIsNews(l, d, x);
    }
  }

  lemma AnsweredDocSync(l: Link, d: string, x: Version, o: Outcome, t: Replica)
    requires Shape(l) && DocInv(l, d) && GoodUpload(l, d, x) && AboutToAnswer(l, d, x) && Answered(l, d, x, o, t)
    ensures var n := l.(server := t);
      && Honest(n, d)
      && (if Settles(o) then CaughtUp(n, d) else LastGen(t.log, d) > Known(l).gen || d in l.skipped)
  {
    if t != l.server {
      var e: Entry :| e.docId == d && t.log == l.server.log + [e];
      LastGenAppend(l.server.log, e, d);
    } else if o == Superseded {
      NewerIsStrictOrder(RevOf(t, d), x.rev, RevOf(t, d));
    }
    if LastGen(l.client.log, d) <= KnownByServer(l).gen {
      AnsweredIsNotAhead(l, d, x, o, t);
    }
  }

  lemma AnsweredDoc(l: Link, d: string, x: Version, o: Outcome, t: Replica)
    requires Shape(l) && DocInv(l, d) && GoodUpload(l, d, x) && AboutToAnswer(l, d, x) && Answered(l, d, x, o, t)
    ensures DocInv(AfterAnswer(l, d, o, t), d)
  {
    hide Covers, Newer, Positive, Foreign, LastGen;
    var n := AfterAnswer(l, d, o, t);
    AnsweredDocBasics(l, d, x, o, t);
    AnsweredDocSync(l, d, x, o, t);
    IndexIsUnique(l.session.changes, |l.session.outcomes|);
    if LastGen(l.client.log, d) <= l.session.startGen {
      AnsweredIsNotAhead(l, d, x, o, t);
    }
    SessionDoesNotShow(l.(server := t), n.session, d);
    AnsweredGrowsLog(l, d, x, o, t);
    AnsweredKeepsCounters(l.(server := t), n, d);
    hide CaughtUp, NotAhead, Answered, GoodUpload, Counters, GoodReplica;
    assert SendingDoc(n, d);
  }

  lemma AnsweredKeepsCounters(l: Link, n: Link, d: string)
    requires n.server == l.server && n.client == l.client && n.skipped == l.skipped && Counters(l, d) && Honest(l, d)
    ensures Counters(n, d) && Honest(n, d)
  {
    hide Positive, Foreign, LastGen, Newer, Covers;
    assert forall x: Clock :: Explained(n, d, x) == Explained(l, d, x);
  }

  lemma AnsweredOtherIsSame(l: Link, d: string, x: Version, o: Outcome, t: Replica, y: string)
    requires Shape(l) && Answered(l, d, x, o, t) && y != d
    ensures SameDoc(l, l.(server := t), y)
  {
    hide Newer, Covers, LastGen, GoodVersion;
    if t != l.server {
      var e: Entry :| e.docId == d && t.log == l.server.log + [e];
      LastGenAppend(l.server.log, e, y);
    }
  }

  lemma AnsweredGrowsLog(l: Link, d: string, x: Version, o: Outcome, t: Replica)
    requires Answered(l, d, x, o, t)
    ensures |l.server.log| <= |t.log| && t.known == l.server.known && t.uid == l.server.uid
  {}

  lemma AnsweredOtherDoc(l: Link, d: string, x: Version, o: Outcome, t: Replica, y: string)
    requires Shape(l) && DocInv(l, y) && AboutToAnswer(l, d, x) && Answered(l, d, x, o, t) && y != d
    ensures DocInv(AfterAnswer(l, d, o, t), y)
  {
    hide CaughtUp, NotAhead, GoodReplica, Counters, SessionDoc;
    var n := AfterAnswer(l, d, o, t);
    var mid := l.(server := t);
    AnsweredOtherIsSame(l, d, x, o, t, y);
    AnsweredGrowsLog(l, d, x, o, t);
    hide Answered;
    SameDocSameView(l, mid, y);
    SameDocSameSession(l, mid, y);
    AnswerLeavesOthers(l, d, x, o, t, y);
    SessionChangeKeepsDoc(mid, n.session, y);
  }

  lemma AnswerLeavesOthers(l: Link, d: string, x: Version, o: Outcome, t: Replica, y: string)
    requires Shape(l) && AboutToAnswer(l, d, x) && Answered(l, d, x, o, t) && y != d
    requires SessionDoc(l.(server := t), y)
    ensures SessionDoc(AfterAnswer(l, d, o, t), y)
  {
    hide Covers, Newer, Positive, Foreign, GoodReplica, Counters, LastGen, Held, Answered;
    var n, mid := AfterAnswer(l, d, o, t), l.(server := t);
    assert IndexOf(l.session.changes, y) != |l.session.outcomes|;
    assert CaughtUp(n, y) == CaughtUp(mid, y) && NotAhead(n, y) == NotAhead(mid, y);
    assert forall v :: GoodUpload(n, y, v) == GoodUpload(mid, y, v);
  }

  lemma AnsweredShape(l: Link, d: string, x: Version, o: Outcome, t: Replica)
    requires Shape(l) && AboutToAnswer(l, d, x) && Answered(l, d, x, o, t)
    ensures Shape(AfterAnswer(l, d, o, t))
  {
    if t != l.server {
      var e: Entry :| e.docId == d && t.log == l.server.log + [e];
      OnLogGrows(l.server.log, e, Known(l));
    }
  }

  lemma AnswerKeepsInv(l: Link, d: string, x: Version, o: Outcome, t: Replica)
    requires LinkInv(l) && AboutToAnswer(l, d, x) && Answered(l, d, x, o, t)
    ensures LinkInv(AfterAnswer(l, d, o, t))
  {
    AnsweredShape(l, d, x, o, t);
    IndexIsUnique(l.session.changes, |l.session.outcomes|);
    forall y: string ensures DocInv(AfterAnswer(l, d, o, t), y) {
      assert DocInv(l, y);
      if y == d {
        AnsweredDoc(l, d, x, o, t);
      } else {
        AnsweredOtherDoc(l, d, x, o, t, y);
      }
    }
  }

  /** The document the server is about to take in. */
  lemma UploadIsGood(l: Link)
    requires LinkInv(l) && l.session.phase == Sending && |l.session.outcomes| < |l.session.sent|
    ensures var c := l.session.changes[|l.session.outcomes|];
      GoodUpload(l, c.docId, l.session.sent[|l.session.outcomes|])
  {
    var c := l.session.changes[|l.session.outcomes|];
    IndexIsUnique(l.session.changes, |l.session.outcomes|);
    assert DocInv(l, c.docId);
  }

  lemma InsertKeepsInv(l: Link)
    requires LinkInv(l)
    ensures LinkInv(InsertStep(l))
  {
    var n, ss := InsertStep(l), l.session;
    var k := |ss.outcomes|;
    if ss.phase == Sending && k < |ss.sent| && k < |ss.changes| {
      var d, x := ss.changes[k].docId, ss.sent[k];
      var taken := Merge(l.server, d, x, false);
      UploadIsGood(l);
      assert DocInv(l, d);
      if n.session == NO_SESSION {
        AbortKeepsInv(l);
      } else {
        MergeIsAnswered(l, d, x);
        AnswerKeepsInv(l, d, x, taken.value.outcome, taken.value.replica);
        assert n == AfterAnswer(l, d, taken.value.outcome, taken.value.replica);
      }
    }
  }

  // ---------- recording what was taken in ----------

  /** By the order of the changes, what is recorded does not reach beyond what was answered. */
  lemma RecordedDocIsNotAhead(l: Link, d: string)
    requires Shape(l) && DocInv(l, d) && RecordStep(l) != l
    requires LastGen(l.client.log, d) <= l.session.unrecorded.value.gen
    ensures NotAhead(l, d)
  {
    hide Covers, Newer, Positive, Foreign, GoodReplica, Counters, GoodUpload, CaughtUp;
    var ss := l.session;
    assert ss.unrecorded.value.gen == ss.changes[|ss.outcomes| - 1].gen;
  }

  lemma RecordKeepsDoc(l: Link, d: string)
    requires Shape(l) && DocInv(l, d) && RecordStep(l) != l
    ensures DocInv(RecordStep(l), d)
  {
    hide Covers, Newer, Positive, Foreign, LastGen, Held;
    var n := RecordStep(l);
    var ss := l.session;
    assert SameDoc(l, n, d);
    SameDocSameView(l, n, d);
    var k := IndexOf(ss.changes, d);
    if |ss.outcomes| <= k < |ss.sent| {
      assert GoodUpload(n, d, ss.sent[k]);
    }
    if LastGen(l.client.log, d) <= ss.unrecorded.value.gen {
      RecordedDocIsNotAhead(l, d);
    }
    hide CaughtUp, NotAhead, GoodUpload, GoodReplica, Counters;
  }

  lemma RecordKeepsInv(l: Link)
    requires LinkInv(l)
    ensures LinkInv(RecordStep(l))
  {
    var n, ss := RecordStep(l), l.session;
    if n != l {
      hide DocInv;
      assert LoggedChange(l.client.log, ss.changes[|ss.outcomes| - 1]);
      forall d: string ensures DocInv(n, d) {
        RecordKeepsDoc(l, d);
      }
    }
  }
}
