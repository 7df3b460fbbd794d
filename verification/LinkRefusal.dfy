/**
 * What is known of a document whose last delivery was refused: the client lacks something of the
 * server's, and as long as neither side writes it again the two differ. Every step keeps this.
 */
module LinkRefusal {
  import opened ChangeLog
  import opened Documents
  import opened LinkClient
  import opened LinkInvariant
  import opened LinkReceive
  import opened LinkRely
  import opened LinkSend
  import opened Links
  import opened Pruning
  import opened Replicas
  import opened VectorClocks

  // ---------- the invariant ----------

  /** Apart from the client's own counter, no conflict knows more than the current version. */
  ghost predicate Topped(r: Replica, d: string) {
    forall w <- Held(r, d) :: Foreign(r.uid, w.rev, RevOf(r, d))
  }

  /** Nor does anything the client holds know more than the version on its way. */
  ghost predicate FreshDownload(l: Link, d: string) {
    var ss := l.session;
    var m := IndexOf(ss.toReturn, d);
    ss.phase == Receiving && ss.delivered <= m < |ss.returned| ==>
      forall w <- Held(l.client, d) :: Foreign(l.client.uid, w.rev, ss.returned[m].rev)
  }

  /** How far the server's log has been gone through, as far as this document is concerned. */
  predicate Reached(l: Link, d: string) {
    LastGen(l.server.log, d) <=
      if l.session.phase == Receiving && !Pending(l.session, d) then l.session.newPoint.gen else Known(l).gen
  }

  /** The document is to be sent and has not been answered yet. */
  predicate Unanswered(ss: Session, d: string) {
    |ss.outcomes| <= IndexOf(ss.changes, d) < |ss.changes|
  }

  /** The server has answered the last thing the client logged of this document, or the client logged it on the server's behalf. */
  predicate Handled(l: Link, d: string) {
    var ss, g := l.session, LastGen(l.client.log, d);
    || g <= KnownByServer(l).gen
    || match ss.phase
       case Idle => false
       case Sending => g <= ss.startGen && !Unanswered(ss, d)
       case Receiving => g <= ss.startGen || |l.client.log| == ss.startGen + ss.numLogged
       case Finished =>
         || g <= ss.startGen || |l.client.log| == ss.startGen + ss.numLogged
         || (ss.gapless.Some? && g <= ss.gapless.value.gen)
  }

  ghost predicate Differ(l: Link, d: string) {
    d in l.client.docs && d in l.server.docs && l.client.docs[d].content != l.server.docs[d].content
  }

  ghost predicate SkippedDoc(l: Link, d: string) {
    d in l.skipped ==>
      && d in l.client.docs && d in l.server.docs
      && NewsFor(l.client.uid, Held(l.client, d), RevOf(l.server, d))
      && (Reached(l, d) ==> Count(RevOf(l.server, d), l.client.uid) < Count(RevOf(l.client, d), l.client.uid))
      && (Reached(l, d) && Handled(l, d) ==> Differ(l, d))
  }

  ghost predicate RefusalDoc(l: Link, d: string) {
    Topped(l.client, d) && FreshDownload(l, d) && SkippedDoc(l, d)
  }

  ghost predicate FullInv(l: Link) {
    LinkInv(l) && forall d: string :: RefusalDoc(l, d)
  }

  lemma FullInvOfDoc(l: Link, d: string)
    requires FullInv(l)
    ensures Shape(l) && DocInv(l, d) && RefusalDoc(l, d)
  {}

  lemma NewsIsNotCaughtUp(l: Link, d: string)
    requires d in l.client.docs && NewsFor(l.client.uid, Held(l.client, d), RevOf(l.server, d))
    ensures !CaughtUp(l, d)
  {
    assert l.client.docs[d] in Held(l.client, d);
  }

  // ---------- what the document does not notice ----------

  lemma UntouchedDocStays(l: Link, n: Link, d: string)
    requires RefusalDoc(l, d) && SameDoc(l, n, d)
    requires FreshDownload(n, d)
    requires d in l.skipped ==> (Reached(n, d) ==> Reached(l, d)) && (Reached(n, d) && Handled(n, d) ==> Handled(l, d))
    ensures RefusalDoc(n, d)
  {
    hide Foreign, Below, Reached, Handled, LastGen;
    assert Held(n.client, d) == Held(l.client, d);
  }

  lemma SameDownloadsStayFresh(l: Link, n: Link, d: string)
    requires FreshDownload(l, d) && SameDoc(l, n, d)
    requires n.session.phase == Receiving ==>
      && l.session.phase == Receiving
      && n.session.toReturn == l.session.toReturn
      && l.session.delivered <= n.session.delivered
      && n.session.returned == l.session.returned
    ensures FreshDownload(n, d)
  {
    hide Foreign, LastGen;
    assert Held(n.client, d) == Held(l.client, d);
  }

  // ---------- writes on the server ----------

  lemma NewsGrows(own: string, held: set<Version>, s: Clock, w: Clock)
    requires NewsFor(own, held, s) && Covers(w, s)
    ensures NewsFor(own, held, w)
  {
    var k :| k != own && k in s && forall v <- held :: Below(v.rev, k, s);
    assert k in s.Keys;
    forall v <- held ensures Below(v.rev, k, w) {
      assert Below(v.rev, k, s);
    }
  }

  lemma ServerWriteKeepsRefusal(l: Link, t: Replica, d: string, w: Version, x: string)
    requires Shape(l) && RefusalDoc(l, x) && ServerWrote(l.client.uid, l.server, t, d, w)
    ensures RefusalDoc(l.(server := t), x)
  {
    hide Foreign, Below, LastGen, GoodVersion, GrowsElsewhere;
    var n := l.(server := t);
    var e: Entry :| e.docId == d && t.log == l.server.log + [e];
    LastGenAppend(l.server.log, e, x);
    if x == d {
      hide Covers;
      if d in l.skipped {
        NewsGrows(l.client.uid, Held(l.client, d), RevOf(l.server, d), w.rev);
      }
      assert !Reached(n, d);
    } else {
      assert SameDoc(l, n, x);
      SameDownloadsStayFresh(l, n, x);
      UntouchedDocStays(l, n, x);
    }
  }

  lemma ServerIdleKeepsRefusal(l: Link, t: Replica, x: string)
    requires RefusalDoc(l, x) && ServerIdle(l.client.uid, l.server, t)
    ensures RefusalDoc(l.(server := t), x)
  {
    hide Foreign, NewsFor, LastGen;
    assert SameDoc(l, l.(server := t), x);
    UntouchedDocStays(l, l.(server := t), x);
  }

  // ---------- writes at the client ----------

  lemma RewrittenIsTopped(r: Replica, t: Replica, d: string, from: set<Version>, top: Clock)
    requires Rewrote(r, t, d, from) && Covers(RevOf(t, d), top)
    requires forall w <- from :: Foreign(r.uid, w.rev, top)
    ensures Topped(t, d)
    ensures forall w <- Held(t, d) :: Foreign(r.uid, w.rev, top)
  {
    hide Foreign, Derived, Covers;
    forall w <- Held(t, d) ensures Foreign(r.uid, w.rev, RevOf(t, d)) && Foreign(r.uid, w.rev, top) {
      DerivedIsForeign(r.uid, w.rev, from, top);
      ExplainedGrows(r.uid, w.rev, top, RevOf(t, d));
    }
  }

  lemma RewriteStaysFresh(l: Link, t: Replica, d: string)
    requires FreshDownload(l, d) && Rewrote(l.client, t, d, Held(l.client, d))
    ensures FreshDownload(l.(client := t), d)
  {
    hide Foreign, Derived;
    var ss := l.session;
    var m := IndexOf(ss.toReturn, d);
    if ss.phase == Receiving && ss.delivered <= m < |ss.returned| {
      forall w <- Held(t, d) ensures Foreign(l.client.uid, w.rev, ss.returned[m].rev) {
        DerivedIsForeign(l.client.uid, w.rev, Held(l.client, d), ss.returned[m].rev);
      }
    }
  }

  lemma WrittenIsUnanswered(l: Link, t: Replica, d: string)
    requires Shape(l) && ClientWrote(l.client, t, d)
    ensures !Handled(l.(client := t), d)
  {
    hide Derived, GoodVersion, Covers, LastGen, GoodChanges;
    var e: Entry :| e.docId == d && t.log == l.client.log + [e];
    LastGenAppend(l.client.log, e, d);
  }

  lemma WrittenDocKeepsRefusal(l: Link, t: Replica, d: string)
    requires Shape(l) && RefusalDoc(l, d) && ClientWrote(l.client, t, d)
    ensures RefusalDoc(l.(client := t), d)
  {
    hide Foreign, Below, LastGen, Covers, Derived, Handled, NewsFor;
    RewrittenIsTopped(l.client, t, d, Held(l.client, d), RevOf(l.client, d));
    RewriteStaysFresh(l, t, d);
    WrittenIsUnanswered(l, t, d);
    if d in l.skipped {
      NewsStaysNews(l.client.uid, Held(l.client, d), Held(t, d), RevOf(l.server, d));
    }
    assert Reached(l.(client := t), d) == Reached(l, d);
  }

  lemma CoversItself(a: Clock)
    ensures Covers(a, a)
  {}

  lemma ConflictsDocKeepsRefusal(l: Link, t: Replica, d: string)
    requires RefusalDoc(l, d) && ClientSetConflicts(l.client, t, d)
    ensures RefusalDoc(l.(client := t), d)
  {
    hide Foreign, Below, LastGen, Covers, Derived, NewsFor;
    CoversItself(RevOf(t, d));
    RewrittenIsTopped(l.client, t, d, Held(l.client, d), RevOf(l.client, d));
    RewriteStaysFresh(l, t, d);
    if d in l.skipped {
      NewsStaysNews(l.client.uid, Held(l.client, d), Held(t, d), RevOf(l.server, d));
    }
    var n := l.(client := t);
    assert Reached(n, d) == Reached(l, d) && Handled(n, d) == Handled(l, d);
  }

  lemma OtherDocSeesNoClientChange(l: Link, t: Replica, d: string, x: string)
    requires Shape(l) && x != d
    requires ClientWrote(l.client, t, d) || ClientSetConflicts(l.client, t, d)
    ensures var n := l.(client := t);
      SameDoc(l, n, x) && (Reached(n, x) ==> Reached(l, x)) && (Handled(n, x) ==> Handled(l, x))
  {
    hide GoodVersion, Covers, Derived, LastGen, GoodChanges, OnLog;
    SameElsewhere(l.client, t, d, x);
    if ClientWrote(l.client, t, d) {
      var e: Entry :| e.docId == d && t.log == l.client.log + [e];
      LastGenAppend(l.client.log, e, x);
    }
  }

  lemma ClientChangeKeepsRefusal(l: Link, t: Replica, d: string, x: string)
    requires Shape(l) && RefusalDoc(l, x)
    requires RefusalDoc(l, d)
    requires ClientWrote(l.client, t, d) || ClientSetConflicts(l.client, t, d)
    ensures RefusalDoc(l.(client := t), x)
  {
    hide RefusalDoc, ClientWrote, ClientSetConflicts, Shape;
    if x != d {
      OtherDocSeesNoClientChange(l, t, d, x);
      RefusalGivesFresh(l, x);
      SameDownloadsStayFresh(l, l.(client := t), x);
      UntouchedDocStays(l, l.(client := t), x);
    } else if ClientWrote(l.client, t, d) {
      WrittenDocKeepsRefusal(l, t, d);
    } else {
      ConflictsDocKeepsRefusal(l, t, d);
    }
  }

  lemma RefusalGivesFresh(l: Link, d: string)
    requires RefusalDoc(l, d)
    ensures FreshDownload(l, d)
  {}

  // ---------- steps that only note something ----------

  /** A step that changes neither what the two sides show of the document nor what is on its way. */
  lemma NotingKeepsRefusal(l: Link, n: Link, d: string)
    requires RefusalDoc(l, d) && n.skipped == l.skipped
    requires n.server.uid == l.server.uid && n.server.docs == l.server.docs && n.server.log == l.server.log
    requires n.server.conflicts == l.server.conflicts
    requires n.client.uid == l.client.uid && n.client.docs == l.client.docs && n.client.log == l.client.log
    requires n.client.conflicts == l.client.conflicts
    requires n.session.phase == Receiving ==>
      && l.session.phase == Receiving
      && n.session.toReturn == l.session.toReturn
      && l.session.delivered <= n.session.delivered
      && n.session.returned == l.session.returned
    requires Reached(n, d) ==> Reached(l, d)
    requires Reached(n, d) && Handled(n, d) ==> Handled(l, d)
    ensures RefusalDoc(n, d)
  {
    hide Reached, Handled, LastGen, Topped, SkippedDoc;
    assert SameDoc(l, n, d);
    SameDownloadsStayFresh(l, n, d);
    UntouchedDocStays(l, n, d);
  }

  lemma AbortKeepsRefusal(l: Link, d: string)
    requires FullInv(l)
    ensures RefusalDoc(l.(session := NO_SESSION), d)
  {
    hide RefusalDoc, DocInv, GoodChanges;
    FullInvOfDoc(l, d);
    NotingKeepsRefusal(l, l.(session := NO_SESSION), d);
  }

  lemma StartKeepsRefusal(l: Link, d: string)
    requires FullInv(l) && StartStep(l) != l
    ensures RefusalDoc(StartStep(l), d)
  {
    hide RefusalDoc, DocInv, GoodChanges, Changes, LastGen;
    var n := StartStep(l);
    FullInvOfDoc(l, d);
    if LastGen(l.client.log, d) > KnownByServer(l).gen {
      ChangedDocIsListed(l.client.log, KnownByServer(l).gen, d);
    }
    NotingKeepsRefusal(l, n, d);
  }

  lemma SendKeepsRefusal(l: Link, d: string)
    requires FullInv(l) && SendStep(l) != l
    ensures RefusalDoc(SendStep(l), d)
  {
    hide RefusalDoc, DocInv, GoodChanges, LastGen;
    FullInvOfDoc(l, d);
    if SendStep(l).session == NO_SESSION {
      AbortKeepsRefusal(l, d);
    } else {
      NotingKeepsRefusal(l, SendStep(l), d);
    }
  }

  lemma RecordKeepsRefusal(l: Link, d: string)
    requires FullInv(l) && RecordStep(l) != l
    ensures RefusalDoc(RecordStep(l), d)
  {
    hide RefusalDoc, DocInv, LastGen;
    var n, ss := RecordStep(l), l.session;
    FullInvOfDoc(l, d);
    var k := IndexOf(ss.changes, d);
    if Unanswered(ss, d) {
      assert LoggedChange(l.client.log, ss.changes[k]);
      LoggedIsNotLater(l.client.log, ss.changes[k]);
      assert ss.changes[|ss.outcomes| - 1].gen < ss.changes[k].gen;
    }
    NotingKeepsRefusal(l, n, d);
  }

  lemma LoggedIsNotLater(log: seq<Entry>, c: Change)
    requires LoggedChange(log, c)
    ensures c.gen <= LastGen(log, c.docId)
  {}

  /** What is not returned although it was logged since has arrived with an answer. */
  lemma SkippedIsFound(l: Link, d: string)
    requires FullInv(l) && FindStep(l) != l && d in l.skipped
    requires Reached(FindStep(l), d)
    ensures Reached(l, d)
  {
    FullInvOfDoc(l, d);
    NewsIsNotCaughtUp(l, d);
    var ss, g := l.session, LastGen(l.server.log, d);
    if g > Known(l).gen {
      if d !in ss.seenIds || ss.seenIds[d] < g {
        FoundEntry(l, d);
        UnsettledIsReturned(l, d);
        hide FullInv, LastGen, DocInv, RefusalDoc;
      }
    }
  }

  lemma FindKeepsRefusal(l: Link, d: string)
    requires FullInv(l) && FindStep(l) != l
    ensures RefusalDoc(FindStep(l), d)
  {
    hide RefusalDoc, DocInv, GoodChanges, LastGen, Changes, ToReturn, Reached, FullInv;
    FullInvOfDoc(l, d);
    var n := FindStep(l);
    assert n.session.returned == [];
    assert FreshDownload(n, d);
    assert SameDoc(l, n, d);
    if d in l.skipped {
      if Reached(n, d) {
        SkippedIsFound(l, d);
      }
    }
    UntouchedDocStays(l, n, d);
  }

  lemma ReturnedIsFresh(l: Link, d: string)
    requires FullInv(l) && ReturnStep(l) != l && ReturnStep(l).session.phase == Receiving
    ensures FreshDownload(ReturnStep(l), d)
  {
    FullInvOfDoc(l, d);
    hide Foreign, LastGen, FullInv, GoodReplica, Honest, ReceivingDoc, Topped, SkippedDoc, GoodChanges;
    var ss := l.session;
    if IndexOf(ss.toReturn, d) == |ss.returned| {
      assert forall w <- Held(l.client, d) :: Explained(l, d, w.rev);
    }
  }

  lemma ReturnKeepsRefusal(l: Link, d: string)
    requires FullInv(l) && ReturnStep(l) != l
    ensures RefusalDoc(ReturnStep(l), d)
  {
    hide FullInv, RefusalDoc, DocInv, GoodChanges, LastGen, FreshDownload;
    FullInvOfDoc(l, d);
    var n := ReturnStep(l);
    if n.session == NO_SESSION {
      AbortKeepsRefusal(l, d);
    } else {
      ReturnedIsFresh(l, d);
      assert SameDoc(l, n, d);
      UntouchedDocStays(l, n, d);
    }
  }

  lemma CompleteKeepsRefusal(l: Link, d: string)
    requires FullInv(l) && CompleteStep(l) != l
    ensures RefusalDoc(CompleteStep(l), d)
  {
    hide RefusalDoc, DocInv, GoodChanges, LastGen;
    FullInvOfDoc(l, d);
    NotingKeepsRefusal(l, CompleteStep(l), d);
  }

  lemma CheckGaplessKeepsRefusal(l: Link, d: string)
    requires FullInv(l) && CheckGaplessStep(l) != l
    ensures RefusalDoc(CheckGaplessStep(l), d)
  {
    hide RefusalDoc, DocInv, GoodChanges, LastGen;
    FullInvOfDoc(l, d);
    if CheckGaplessStep(l).session == NO_SESSION {
      AbortKeepsRefusal(l, d);
    } else {
      NotingKeepsRefusal(l, CheckGaplessStep(l), d);
    }
  }

  lemma RecordInfoKeepsRefusal(l: Link, d: string)
    requires FullInv(l) && RecordInfoStep(l) != l
    ensures RefusalDoc(RecordInfoStep(l), d)
  {
    hide RefusalDoc, DocInv, GoodChanges, LastGen;
    FullInvOfDoc(l, d);
    NotingKeepsRefusal(l, RecordInfoStep(l), d);
  }

  // ---------- the server's answer ----------

  lemma LowerCountIsNotCovering(a: Clock, b: Clock, own: string)
    requires Count(a, own) < Count(b, own) && Positive(a)
    ensures !Covers(a, b)
  {
    if Covers(a, b) {
      CountGrows(a, b, own);
    }
  }

  /** A document skipped and not written since: its upload can only be found in conflict. */
  lemma UploadOfSkippedConflicts(l: Link, d: string, x: Version, o: Outcome)
    requires DocInv(l, d) && LinkSend.Answered(l, d, x, o, l.server)
    requires d in l.client.docs && d in l.server.docs && x == l.client.docs[d]
    requires Count(RevOf(l.server, d), l.client.uid) < Count(RevOf(l.client, d), l.client.uid)
    ensures Differ(l, d)
  {
    hide Foreign, LastGen, Honest, SessionDoc, Counters;
    LowerCountIsNotCovering(RevOf(l.server, d), RevOf(l.client, d), l.client.uid);
    CoversItself(x.rev);
    hide Covers;
  }

  lemma SentIsCurrent(l: Link, d: string, x: Version)
    requires DocInv(l, d) && AboutToAnswer(l, d, x) && Shape(l)
    requires LastGen(l.client.log, d) <= l.session.startGen
    ensures d in l.client.docs && x == l.client.docs[d]
  {
    IndexIsUnique(l.session.changes, |l.session.outcomes|);
    hide LastGen, CaughtUp, NotAhead, Covers, Foreign;
  }

  lemma AnsweredKnows(l: Link, d: string, x: Version, o: Outcome, t: Replica)
    requires Shape(l) && LinkSend.Answered(l, d, x, o, t)
    ensures |l.server.log| <= |t.log| && t.known == l.server.known && t.uid == l.server.uid
    ensures d in l.server.docs ==> d in t.docs
    ensures Covers(RevOf(t, d), RevOf(l.server, d))
    ensures t != l.server ==> LastGen(t.log, d) > Known(l).gen
  {
    CoversItself(RevOf(l.server, d));
    hide Covers, GoodVersion;
    if t != l.server {
      var e: Entry :| e.docId == d && t.log == l.server.log + [e];
      LastGenAppend(l.server.log, e, d);
    }
  }

  lemma AnsweredDiffers(l: Link, d: string, x: Version, o: Outcome)
    requires FullInv(l) && AboutToAnswer(l, d, x) && LinkSend.Answered(l, d, x, o, l.server)
    requires d in l.skipped && Reached(l, d)
    requires LastGen(l.client.log, d) <= l.session.startGen
    ensures Differ(l, d)
  {
    hide LastGen, LinkInv, Reached, Handled, Differ, LinkSend.Answered, NewsFor, DocInv;
    FullInvOfDoc(l, d);
    SentIsCurrent(l, d, x);
    UploadOfSkippedConflicts(l, d, x, o);
  }

  lemma AnsweredSkipped(l: Link, d: string, x: Version, o: Outcome, t: Replica)
    requires FullInv(l) && AboutToAnswer(l, d, x) && LinkSend.Answered(l, d, x, o, t)
    ensures SkippedDoc(AfterAnswer(l, d, o, t), d)
  {
    hide LastGen, LinkInv, LinkSend.Answered, NewsFor, DocInv, GoodChanges, Covers, Topped, FreshDownload;
    FullInvOfDoc(l, d);
    AnsweredKnows(l, d, x, o, t);
    var n := AfterAnswer(l, d, o, t);
    if d in l.skipped {
      NewsGrows(l.client.uid, Held(l.client, d), RevOf(l.server, d), RevOf(t, d));
      if t == l.server && Reached(n, d) && Handled(n, d) && !Handled(l, d) {
        AnsweredDiffers(l, d, x, o);
      }
    }
  }

  lemma AnswerLeavesOtherRefusals(l: Link, d: string, x: Version, o: Outcome, t: Replica, y: string)
    requires FullInv(l) && AboutToAnswer(l, d, x) && LinkSend.Answered(l, d, x, o, t) && y != d
    ensures RefusalDoc(AfterAnswer(l, d, o, t), y)
  {
    hide FullInv, DocInv, LinkSend.Answered, RefusalDoc, LastGen, GoodChanges, FreshDownload;
    FullInvOfDoc(l, y);
    AnsweredKnows(l, d, x, o, t);
    var n := AfterAnswer(l, d, o, t);
    AnsweredOtherIsSame(l, d, x, o, t, y);
    assert IndexOf(l.session.changes, y) != |l.session.outcomes|;
    SameDocSameLogs(l, l.(server := t), y);
    NothingReturnedIsFresh(n, y);
    UntouchedDocStays(l, n, y);
  }

  lemma NothingReturnedIsFresh(l: Link, d: string)
    requires l.session.phase != Receiving || l.session.returned == []
    ensures FreshDownload(l, d)
  {}

  lemma AnswerKeepsRefusal(l: Link, d: string, x: Version, o: Outcome, t: Replica, y: string)
    requires FullInv(l) && AboutToAnswer(l, d, x) && LinkSend.Answered(l, d, x, o, t)
    ensures RefusalDoc(AfterAnswer(l, d, o, t), y)
  {
    hide FullInv, DocInv, LinkSend.Answered, SkippedDoc, LastGen, GoodChanges, Foreign;
    if y == d {
      FullInvOfDoc(l, d);
      AnsweredSkipped(l, d, x, o, t);
      NothingReturnedIsFresh(AfterAnswer(l, d, o, t), d);
    } else {
      AnswerLeavesOtherRefusals(l, d, x, o, t, y);
    }
  }

  lemma InsertKeepsRefusal(l: Link, y: string)
    requires FullInv(l) && InsertStep(l) != l
    ensures RefusalDoc(InsertStep(l), y)
  {
    if InsertStep(l).session == NO_SESSION {
      AbortKeepsRefusal(l, y);
    } else {
      var k := |l.session.outcomes|;
      var d, x := l.session.changes[k].docId, l.session.sent[k];
      var taken := Merge(l.server, d, x, false).value;
      UploadIsGood(l);
      FullInvOfDoc(l, d);
      MergeIsAnswered(l, d, x);
      hide FullInv, DocInv, LinkSend.Answered, RefusalDoc, Merge, GoodUpload;
      AnswerKeepsRefusal(l, d, x, taken.outcome, taken.replica, y);
      assert InsertStep(l) == AfterAnswer(l, d, taken.outcome, taken.replica);
    }
  }

  // ---------- deliveries ----------

  /** A version the client does not cover has a counter nothing held at the client has reached. */
  lemma UncoveredIsNews(own: string, held: set<Version>, cur: Clock, v: Clock)
    requires !Covers(cur, v) && Positive(v)
    requires Count(v, own) <= Count(cur, own)
    requires forall w <- held :: Foreign(own, w.rev, cur)
    ensures NewsFor(own, held, v)
  {
    var k :| k in v.Keys && !(k in cur && v[k] <= cur[k]);
    assert k != own;
    forall w <- held ensures Below(w.rev, k, v) {
      assert k in w.rev.Keys ==> k in cur && w.rev[k] <= cur[k];
    }
  }

  lemma NewIsNotCovered(own: string, held: set<Version>, v: Clock, h: Version)
    requires NewsFor(own, held, v) && h in held
    ensures !Covers(h.rev, v)
  {
    var k :| k != own && k in v && forall w <- held :: Below(w.rev, k, v);
    assert Below(h.rev, k, v);
    assert k in v.Keys;
  }

  lemma DownloadIsNews(l: Link, d: string, v: Version)
    requires DocInv(l, d) && Topped(l.client, d) && GoodDownload(l, d, v) && !Covers(RevOf(l.client, d), v.rev)
    ensures NewsFor(l.client.uid, Held(l.client, d), v.rev)
  {
    hide Covers, Foreign, LastGen, Honest, SessionDoc, NewsFor;
    UncoveredIsNews(l.client.uid, Held(l.client, d), RevOf(l.client, d), v.rev);
  }

  /** In a conflict the client's own counter is what the server's version lacks. */
  lemma OwnCountDecides(own: string, cur: Clock, v: Clock)
    requires Foreign(own, cur, v) && !Covers(v, cur) && Positive(cur)
    ensures Count(v, own) < Count(cur, own)
  {
    var k :| k in cur.Keys && !(k in v && cur[k] <= v[k]);
    assert k == own;
  }

  lemma RefusedIsSkipped(l: Link, d: string, v: Version)
    requires FullInv(l) && AboutToDeliver(l, d, v) && Refuses(l.client, d, v)
    ensures SkippedDoc(AfterRefusal(l, l.client, d), d)
  {
    hide Prune, Foreign, LastGen, FullInv, Below, Honest;
    FullInvOfDoc(l, d);
    IndexIsUnique(l.session.toReturn, l.session.delivered);
    assert GoodDownload(l, d, v);
    DownloadIsNews(l, d, v);
    NewsGrows(l.client.uid, Held(l.client, d), v.rev, RevOf(l.server, d));
    NewsIsNotCaughtUp(l, d);
    var n := AfterRefusal(l, l.client, d);
    if Reached(n, d) {
      assert v == l.server.docs[d];
      assert l.client.docs[d] in Held(l.client, d);
      OwnCountDecides(l.client.uid, RevOf(l.client, d), v.rev);
    }
    hide DocInv, Covers, GoodDownload, NewsFor, Topped, FreshDownload;
  }

  /** The others: a document still to come was logged above what is recorded now. */
  lemma OthersAreNotReached(l: Link, n: Link, y: string)
    requires Shape(l) && l.session.phase == Receiving && l.session.delivered < |l.session.toReturn|
    requires l.session.toReturn[l.session.delivered].docId != y
    requires n.session.phase == Receiving && n.session.toReturn == l.session.toReturn
    requires n.session.delivered == l.session.delivered + 1 && n.session.newPoint == l.session.newPoint
    requires n.server == l.server
    requires Known(n) == Known(l) || Known(n) == PointOf(l.session.toReturn[l.session.delivered])
    ensures Reached(n, y) ==> Reached(l, y)
  {
    hide LastGen;
    var rs, m := l.session.toReturn, IndexOf(l.session.toReturn, y);
    assert Pending(n.session, y) == Pending(l.session, y);
    if Pending(l.session, y) {
      assert LoggedChange(l.server.log, rs[m]);
      LoggedIsNotLater(l.server.log, rs[m]);
      assert rs[l.session.delivered].gen < rs[m].gen;
    }
  }

  lemma RefusalLeavesOthers(l: Link, d: string, v: Version, y: string)
    requires FullInv(l) && AboutToDeliver(l, d, v) && y != d
    ensures RefusalDoc(AfterRefusal(l, l.client, d), y)
  {
    hide FullInv, DocInv, GoodChanges, LastGen, RefusalDoc, FreshDownload, Reached;
    FullInvOfDoc(l, y);
    RefusalGivesFresh(l, y);
    var n := AfterRefusal(l, l.client, d);
    assert SameDoc(l, n, y);
    SameDownloadsStayFresh(l, n, y);
    OthersAreNotReached(l, n, y);
    UntouchedDocStays(l, n, y);
  }

  lemma SkippingKeepsRefusal(l: Link, d: string, v: Version, y: string)
    requires FullInv(l) && AboutToDeliver(l, d, v) && Refuses(l.client, d, v)
    ensures RefusalDoc(AfterRefusal(l, l.client, d), y)
  {
    hide FullInv, LastGen, SkippedDoc, Refuses, DocInv, Foreign;
    FullInvOfDoc(l, y);
    if y == d {
      RefusedIsSkipped(l, d, v);
      IndexIsUnique(l.session.toReturn, l.session.delivered);
    } else {
      RefusalLeavesOthers(l, d, v, y);
    }
  }

  lemma RefusalIsSkippingFirst(l: Link, t: Replica, d: string)
    ensures AfterRefusal(l, t, d) == AfterRefusal(l, l.client, d).(client := t)
  {}

  lemma RefusalKeepsRefusal(l: Link, d: string, v: Version, y: string)
    requires FullInv(l) && AboutToDeliver(l, d, v) && Refuses(l.client, d, v)
    ensures RefusalDoc(AfterRefusal(l, Refuse(l.client, d, v), d), y)
  {
    hide LinkInv, RefusalDoc, Refuses, Refuse, ClientSetConflicts, Positive, Held;
    HeldIsPositive(l, d);
    RefusalSetsConflicts(l.client, d, v);
    SkippingKeepsInv(l, d);
    SkippingKeepsRefusal(l, d, v, d);
    SkippingKeepsRefusal(l, d, v, y);
    var n, t := AfterRefusal(l, l.client, d), Refuse(l.client, d, v);
    InvOfDoc(n, d);
    ClientChangeKeepsRefusal(n, t, d, y);
    RefusalIsSkippingFirst(l, t, d);
  }

  /** What has been delivered is on top of everything held. */
  lemma DeliveredIsTopped(l: Link, d: string, v: Version, t: Replica)
    requires AboutToDeliver(l, d, v) && Shape(l) && RefusalDoc(l, d) && Absorbed(l, d, v, t)
    ensures Topped(t, d)
  {
    if t != l.client {
      IndexIsUnique(l.session.toReturn, l.session.delivered);
      hide Foreign, GoodChanges, SkippedDoc, Topped, Rewrote, GoodVersion, Covers;
      CoversItself(v.rev);
      CoveredIsForeign(l.client.uid, v.rev, v.rev);
      RewrittenIsTopped(l.client, t, d, Held(l.client, d) + {v}, v.rev);
    }
  }

  lemma KnownDoesNotShow(r: Replica, source: string, p: SyncPoint, d: string)
    requires Topped(r, d)
    ensures Topped(SetKnown(r, source, p), d)
  {
    assert Held(SetKnown(r, source, p), d) == Held(r, d);
  }

  lemma DeliveredDocIsRefusalDoc(l: Link, d: string, v: Version, t: Replica, inserted: nat)
    requires AboutToDeliver(l, d, v) && Shape(l) && RefusalDoc(l, d) && Absorbed(l, d, v, t)
    ensures RefusalDoc(AfterDelivery(l, t, inserted), d)
  {
    IndexIsUnique(l.session.toReturn, l.session.delivered);
    DeliveredIsTopped(l, d, v, t);
    hide Absorbed, Topped, Foreign;
    KnownDoesNotShow(t, l.server.uid, PointOf(l.session.toReturn[l.session.delivered]), d);
  }

  lemma DeliveryLeavesHandled(l: Link, d: string, v: Version, t: Replica, inserted: nat, y: string)
    requires Shape(l) && Absorbed(l, d, v, t) && AboutToDeliver(l, d, v)
    requires SameDoc(l, AfterDelivery(l, t, inserted), y)
    ensures Handled(AfterDelivery(l, t, inserted), y) ==> Handled(l, y)
  {
    hide Shape, LastGen;
    AbsorbedGrowsLog(l, d, v, t);
    AbsorbedKeepsUid(l, d, v, t);
    SameDocSameLogs(l, AfterDelivery(l, t, inserted), y);
    hide Absorbed, SameDoc;
  }

  lemma DeliveryLeavesOthers(l: Link, d: string, v: Version, t: Replica, inserted: nat, y: string)
    requires FullInv(l) && AboutToDeliver(l, d, v) && Absorbed(l, d, v, t) && y != d
    ensures RefusalDoc(AfterDelivery(l, t, inserted), y)
  {
    hide FullInv, DocInv, LastGen, RefusalDoc, FreshDownload, Reached, Handled, SameDoc, Absorbed;
    FullInvOfDoc(l, y);
    RefusalGivesFresh(l, y);
    var n := AfterDelivery(l, t, inserted);
    DeliveredOtherIsSame(l, d, v, t, inserted, y);
    AbsorbedKeepsUid(l, d, v, t);
    SameDownloadsStayFresh(l, n, y);
    OthersAreNotReached(l, n, y);
    DeliveryLeavesHandled(l, d, v, t, inserted, y);
    UntouchedDocStays(l, n, y);
  }

  lemma DeliverKeepsRefusal(l: Link, y: string)
    requires FullInv(l) && DeliverStep(l) != l
    ensures RefusalDoc(DeliverStep(l), y)
  {
    var i := l.session.delivered;
    var d, v := l.session.toReturn[i].docId, l.session.returned[i];
    assert AboutToDeliver(l, d, v);
    hide DeliverStep, PutDocIfNewer, Refuses, Refuse, GoodDownload, Merge, Absorbed, DocInv, Shape, RefusalDoc, Positive;
    DownloadIsGood(l);
    DeliverIsRefusal(l, d, v);
    if Refuses(l.client, d, v) {
      RefusalKeepsRefusal(l, d, v, y);
    } else {
      var t := Merge(l.client, d, v, true).value.replica;
      DeliverIsDelivery(l, d, v);
      DownloadIsVersion(l, d, v);
      HeldIsPositive(l, d);
      MergeIsAbsorbed(l, d, v);
      FullInvOfDoc(l, d);
      if y == d {
        DeliveredDocIsRefusalDoc(l, d, v, t, DeliverStep(l).session.numInserted);
      } else {
        DeliveryLeavesOthers(l, d, v, t, DeliverStep(l).session.numInserted, y);
      }
    }
  }

  // ---------- every step ----------

  lemma AdvanceKeepsRefusal(l: Link, step: SyncStep, d: string)
    requires FullInv(l)
    ensures RefusalDoc(Advance(l, step), d)
  {
    hide LinkInv, RefusalDoc, StartStep, SendStep, InsertStep, RecordStep, FindStep, ReturnStep, DeliverStep,
      CompleteStep, CheckGaplessStep, RecordInfoStep;
    if Advance(l, step) != l {
      match step
      case Start => StartKeepsRefusal(l, d);
      case Send => SendKeepsRefusal(l, d);
      case Insert => InsertKeepsRefusal(l, d);
      case Record => RecordKeepsRefusal(l, d);
      case Find => FindKeepsRefusal(l, d);
      case Return => ReturnKeepsRefusal(l, d);
      case Deliver => DeliverKeepsRefusal(l, d);
      case Complete => CompleteKeepsRefusal(l, d);
      case CheckGapless => CheckGaplessKeepsRefusal(l, d);
      case RecordInfo => RecordInfoKeepsRefusal(l, d);
      case Abort => AbortKeepsRefusal(l, d);
    }
  }

  /** Every step of a session keeps the whole invariant. */
  lemma AdvanceKeepsFullInv(l: Link, step: SyncStep)
    requires FullInv(l)
    ensures FullInv(Advance(l, step))
  {
    hide LinkInv, RefusalDoc, Advance;
    AdvanceKeepsInv(l, step);
    forall d: string ensures RefusalDoc(Advance(l, step), d) {
      AdvanceKeepsRefusal(l, step, d);
    }
  }

  /** So does whatever the client does locally. */
  lemma LocalActionKeepsFullInv(l: Link, a: LocalAction)
    requires FullInv(l) && Nameable(l.client, a) && Perform(l.client, a).Ok?
    ensures FullInv(l.(client := Perform(l.client, a).value))
  {
    hide LinkInv, RefusalDoc, Perform, Nameable;
    var t := Perform(l.client, a).value;
    LocalActionKeepsInv(l, a);
    LocalActionIsChange(l, a);
    InvOfDoc(l, a.docId);
    forall d: string ensures RefusalDoc(l.(client := t), d) {
      ClientChangeKeepsRefusal(l, t, a.docId, d);
    }
  }

  /** And what the server does on behalf of others. */
  lemma ServerChangeKeepsFullInv(l: Link, t: Replica)
    requires FullInv(l)
    requires ServerIdle(l.client.uid, l.server, t) || exists d, w :: ServerWrote(l.client.uid, l.server, t, d, w)
    ensures FullInv(l.(server := t))
  {
    hide DocInv, RefusalDoc, ServerIdle, ServerWrote;
    if ServerIdle(l.client.uid, l.server, t) {
      ServerIdleKeepsInv(l, t);
      forall x: string ensures RefusalDoc(l.(server := t), x) {
        ServerIdleKeepsRefusal(l, t, x);
      }
    } else {
      var d, w :| ServerWrote(l.client.uid, l.server, t, d, w);
      ServerWriteKeepsInv(l, t, d, w);
      forall x: string ensures RefusalDoc(l.(server := t), x) {
        ServerWriteKeepsRefusal(l, t, d, w, x);
      }
    }
  }
}
