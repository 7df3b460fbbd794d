/**
 * Which of the versions the server ever logged have arrived at a client: what was recorded, what a
 * completed download leaves out, what is missing when a download is given up or a delivery is refused.
 */
module Arrivals {
  import opened CarefulRuns
  import opened ChangeLog
  import opened Documents
  import opened Guarantees
  import opened History
  import opened LinkClient
  import opened LinkInvariant
  import opened LinkReceive
  import opened LinkRefusal
  import opened LinkRely
  import opened Links
  import opened Naming
  import opened Replicas
  import opened Star
  import opened VectorClocks

  // ---------- what a client had when a delivery was refused ----------

  /** A delivery was made between the two, and refused. */
  ghost predicate RefusedNow(l: Link, n: Link, d: string) {
    && AboutToDeliverSome(l)
    && n.session.phase == Receiving && n.session.delivered == l.session.delivered + 1
    && l.session.toReturn[l.session.delivered].docId == d
    && d in n.skipped
  }

  /** For each document the client's revision when its last refused delivery was made. */
  ghost function NoteRefusal(m: map<string, Clock>, l: Link, n: Link): map<string, Clock> {
    if AboutToDeliverSome(l) && RefusedNow(l, n, l.session.toReturn[l.session.delivered].docId) then
      var d := l.session.toReturn[l.session.delivered].docId;
      m[d := RevOf(l.client, d)]
    else m
  }

  ghost function RefusedRun(start: Star, steps: seq<Step>, uid: string): map<string, Clock>
    requires WellFormed(start) && uid in start.clients
  {
    if steps == [] then map[]
    else
      var init := steps[..|steps| - 1];
      NoteRefusal(RefusedRun(start, init, uid), LinkOf(Run(start, init), uid), LinkOf(Run(start, steps), uid))
  }

  /** Since then the client has learned nothing of others about the document. */
  ghost predicate RefusedDoc(l: Link, m: map<string, Clock>, d: string) {
    d in l.skipped ==>
      && d in m
      && Covers(RevOf(l.client, d), m[d])
      && forall v <- Held(l.client, d) :: Foreign(l.client.uid, v.rev, m[d])
  }

  /** A row of the document is an old one, or news to the client. */
  ghost predicate RefusedRow(l: Link, versions: seq<Version>, m: map<string, Clock>, g: nat)
    requires g < |versions| && g < |l.server.log|
  {
    var d := l.server.log[g].docId;
    d in l.skipped ==>
      && d in m
      && (|| Count(versions[g].rev, l.client.uid) <= Count(m[d], l.client.uid)
          || NewsFor(l.client.uid, Held(l.client, d), versions[g].rev))
  }

  ghost predicate RefusedInv(l: Link, versions: seq<Version>, m: map<string, Clock>) {
    && |versions| == |l.server.log|
    && (forall d: string :: RefusedDoc(l, m, d))
    && (forall g :: 0 <= g < |versions| ==> RefusedRow(l, versions, m, g))
  }

  // ---------- one step ----------

  /** The document was refused before, and what the client holds of it comes from what it held. */
  ghost predicate CarriedOn(l: Link, n: Link, d: string) {
    && n.client.uid == l.client.uid
    && d in l.skipped
    && Covers(RevOf(n.client, d), RevOf(l.client, d))
    && forall v <- Held(n.client, d) :: Derived(l.client.uid, v.rev, Held(l.client, d))
  }

  lemma SameHeldIsCarriedOn(l: Link, n: Link, d: string)
    requires LinkInv(l) && n.client.uid == l.client.uid && d in l.skipped
    requires RevOf(n.client, d) == RevOf(l.client, d) && Held(n.client, d) == Held(l.client, d)
    ensures CarriedOn(l, n, d)
  {
    HeldIsPositive(l, d);
    HeldDerivesFromItself(l.client, d);
    CoversItself(RevOf(l.client, d));
    hide LinkInv, Covers, Derived, Held;
  }

  lemma SameRowsAreHeld(r: Replica, s: Replica, d: string)
    requires r.docs == s.docs && r.conflicts == s.conflicts
    ensures RevOf(r, d) == RevOf(s, d) && Held(r, d) == Held(s, d)
  {}

  lemma AdvanceCarriesOn(l: Link, step: SyncStep, d: string)
    requires FullInv(l) && d in Advance(l, step).skipped && !RefusedNow(l, Advance(l, step), d)
    ensures CarriedOn(l, Advance(l, step), d)
  {
    hide LinkInv, RefusalDoc, Advance, Held, CarriedOn;
    var n := Advance(l, step);
    AdvanceKeepsUids(l, step);
    if step == Deliver && AboutToDeliverSome(l) {
      DeliverIsAStep(l);
      DeliverMovesOn(l);
      hide RefusedNow, FullInv;
      DeliveryOfOthers(l, d);
    } else {
      OtherStepsLeaveClient(l, step);
      SameRowsAreHeld(l.client, n.client, d);
    }
    hide FullInv;
    FullInvGivesLinkInv(l);
    SameHeldIsCarriedOn(l, n, d);
  }

  lemma DeliverMovesOn(l: Link)
    requires AboutToDeliverSome(l)
    ensures DeliverStep(l).session.phase == Receiving && DeliverStep(l).session.delivered == l.session.delivered + 1
  {
    hide PutDocIfNewer, AfterPut;
  }

  lemma MovedCarriesOn(l: Link, n: Link, d: string)
    requires FullInv(l) && Moved(l, n) && d in n.skipped && !RefusedNow(l, n, d)
    ensures CarriedOn(l, n, d)
  {
    hide FullInv, Advance, ServerIdle, ServerWrote, Held, Covers, Derived, RefusedNow;
    if step :| n == Advance(l, step) {
      AdvanceCarriesOn(l, step, d);
    } else if !(n == l.(client := n.client) && Kept(l.client, n.client)) {
      FullInvGivesLinkInv(l);
      SameHeldIsCarriedOn(l, n, d);
    }
  }

  lemma CarriedDoc(l: Link, n: Link, m: map<string, Clock>, d: string)
    requires RefusedDoc(l, m, d) && CarriedOn(l, n, d)
    ensures RefusedDoc(n, m, d)
  {
    hide Covers, Foreign, Derived, Held;
    CoversTransitive(RevOf(n.client, d), RevOf(l.client, d), m[d]);
    forall v <- Held(n.client, d) ensures Foreign(l.client.uid, v.rev, m[d]) {
      DerivedIsForeign(l.client.uid, v.rev, Held(l.client, d), m[d]);
    }
  }

  lemma CarriedRow(l: Link, n: Link, versions: seq<Version>, longer: seq<Version>, m: map<string, Clock>, g: nat)
    requires g < |versions| <= |longer| && g < |l.server.log| <= |n.server.log|
    requires longer[g] == versions[g] && n.server.log[g] == l.server.log[g]
    requires RefusedRow(l, versions, m, g) && CarriedOn(l, n, l.server.log[g].docId)
    ensures RefusedRow(n, longer, m, g)
  {
    hide Covers, Derived, Held;
    var d, own := l.server.log[g].docId, l.client.uid;
    if NewsFor(own, Held(l.client, d), versions[g].rev) {
      NewsStaysNews(own, Held(l.client, d), Held(n.client, d), versions[g].rev);
    }
  }

  /** A row just logged is the server's current version, which a refused client does not have. */
  lemma NewRow(n: Link, versions: seq<Version>, m: map<string, Clock>, g: nat)
    requires FullInv(n) && IsHistory(n.server, versions) && |versions| == |n.server.log| == g + 1
    requires var d := n.server.log[g].docId; d in n.skipped ==> d in m
    ensures RefusedRow(n, versions, m, g)
  {
    var d := n.server.log[g].docId;
    FullInvOfDoc(n, d);
    assert LastGen(n.server.log, d) == g + 1;
    assert LastRowIsCurrent(n.server, versions, d);
    hide FullInv, IsHistory, NewsFor, LastGen, DocInv, Topped, FreshDownload;
  }

  lemma RefusalKeepsDocs(l: Link, n: Link, d: string)
    requires FullInv(l) && Moved(l, n) && RefusedNow(l, n, d)
    ensures RevOf(n.client, d) == RevOf(l.client, d) && n.server == l.server && n.client.uid == l.client.uid
  {
    hide FullInv, Kept, ServerIdle, ServerWrote, Advance;
    var step :| n == Advance(l, step);
    OnlyDeliveryMovesOn(l, step);
    DeliverIsAStep(l);
    DeliverCountsItsLog(l);
    SkippedExactlyWhen(l, step, d);
    FullInvGivesLinkInv(l);
    hide LinkInv, DeliverStep, Refuse;
    DeliverIsRefusal(l, d, l.session.returned[l.session.delivered]);
    RefuseKeepsDocs(l.client, d, l.session.returned[l.session.delivered]);
  }

  lemma RefuseKeepsDocs(r: Replica, d: string, v: Version)
    ensures Refuse(r, d, v).docs == r.docs
  {}

  lemma OnlyDeliveryMovesOn(l: Link, step: SyncStep)
    requires Advance(l, step).session.phase == Receiving == l.session.phase
    requires Advance(l, step).session.delivered == l.session.delivered + 1
    ensures step == Deliver
  {
    hide Changes, ToReturn, Merge, PutDocIfNewer, AfterPut;
  }

  lemma RefusedJustNow(l: Link, n: Link, m: map<string, Clock>, d: string)
    requires FullInv(l) && FullInv(n) && Moved(l, n) && RefusedNow(l, n, d)
    requires d in m && m[d] == RevOf(l.client, d)
    ensures RefusedDoc(n, m, d)
  {
    RefusalKeepsDocs(l, n, d);
    FullInvOfDoc(n, d);
    CoversItself(m[d]);
    hide FullInv, Moved, RefusedNow, Foreign, Covers, DocInv, SkippedDoc, FreshDownload;
  }

  lemma RowRefusedJustNow(l: Link, n: Link, versions: seq<Version>, m: map<string, Clock>, g: nat)
    requires FullInv(l) && FullInv(n) && Moved(l, n) && g < |versions| == |n.server.log|
    requires IsHistory(n.server, versions)
    requires RefusedNow(l, n, n.server.log[g].docId)
    requires var d := n.server.log[g].docId; d in m && m[d] == RevOf(l.client, d)
    ensures RefusedRow(n, versions, m, g)
  {
    var d := n.server.log[g].docId;
    RefusalKeepsDocs(l, n, d);
    FullInvOfDoc(n, d);
    OldIsBelow(n.server, versions, g);
    CountGrows(RevOf(n.server, d), versions[g].rev, n.client.uid);
    hide FullInv, Moved, RefusedNow, Foreign, Covers, SkippedDoc, Honest, SessionDoc;
  }

  /** What the watch of the other module adds to the versions: at most one, when the log has grown. */
  lemma WatchGrows(l: Link, w: Watch, n: Link)
    requires WatchInv(l, w) && WatchInv(n, Watched(w, l, n)) && l.server.log <= n.server.log
    ensures var longer := Watched(w, l, n).versions;
      && |w.versions| == |l.server.log| && |longer| == |n.server.log|
      && |longer| <= |w.versions| + 1
      && (forall g :: 0 <= g < |w.versions| ==> longer[g] == w.versions[g] && n.server.log[g] == l.server.log[g])
      && IsHistory(n.server, longer)
  {
    hide IsHistory, ReportedRow, KnownRow, ReturnedCovers, AsFound;
  }

  lemma MovedExtendsLog(l: Link, n: Link)
    requires Moved(l, n)
    ensures l.server.log <= n.server.log
  {
    hide Advance, Kept;
    if step :| n == Advance(l, step) {
      AdvanceExtendsServerLog(l, step);
    } else if d, v :| n == l.(server := n.server) && ServerWrote(l.client.uid, l.server, n.server, d, v) {
    }
  }

  lemma StepKeepsDoc(l: Link, n: Link, m: map<string, Clock>, d: string)
    requires FullInv(l) && FullInv(n) && Moved(l, n) && RefusedDoc(l, m, d)
    ensures RefusedDoc(n, NoteRefusal(m, l, n), d)
  {
    hide FullInv, Moved;
    var after := NoteRefusal(m, l, n);
    if d in n.skipped {
      if RefusedNow(l, n, d) {
        hide RefusedDoc;
        RefusedJustNow(l, n, after, d);
      } else {
        MovedCarriesOn(l, n, d);
        CarriedDoc(l, n, m, d);
        assert after[d] == m[d];
      }
    }
  }

  lemma StepKeepsRow(l: Link, w: Watch, n: Link, m: map<string, Clock>, g: nat)
    requires FullInv(l) && FullInv(n) && Moved(l, n) && RefusedInv(l, w.versions, m)
    requires WatchInv(l, w) && WatchInv(n, Watched(w, l, n)) && g < |n.server.log|
    ensures g < |Watched(w, l, n).versions| == |n.server.log|
    ensures RefusedRow(n, Watched(w, l, n).versions, NoteRefusal(m, l, n), g)
  {
    hide FullInv, Moved, WatchInv, Watched, RefusedDoc, IsHistory;
    MovedExtendsLog(l, n);
    WatchGrows(l, w, n);
    var d, longer, after := n.server.log[g].docId, Watched(w, l, n).versions, NoteRefusal(m, l, n);
    StepKeepsDoc(l, n, m, d);
    if d in n.skipped {
      if RefusedNow(l, n, d) {
        RowRefusedJustNow(l, n, longer, after, g);
      } else if g < |w.versions| {
        MovedCarriesOn(l, n, d);
        assert RefusedRow(l, w.versions, m, g);
        CarriedRow(l, n, w.versions, longer, m, g);
        assert d in m ==> d in after && after[d] == m[d];
      } else {
        RefusedIsNoted(n, after, d);
        NewRow(n, longer, after, g);
      }
    }
  }

  lemma RefusedIsNoted(l: Link, m: map<string, Clock>, d: string)
    requires RefusedDoc(l, m, d) && d in l.skipped
    ensures d in m
  {}

  lemma StepKeepsRefusals(l: Link, w: Watch, n: Link, m: map<string, Clock>)
    requires FullInv(l) && FullInv(n) && Moved(l, n) && RefusedInv(l, w.versions, m)
    requires WatchInv(l, w) && WatchInv(n, Watched(w, l, n))
    ensures RefusedInv(n, Watched(w, l, n).versions, NoteRefusal(m, l, n))
  {
    hide FullInv, Moved, WatchInv, Watched, RefusedDoc, RefusedRow, IsHistory, NoteRefusal;
    MovedExtendsLog(l, n);
    WatchGrows(l, w, n);
    forall d: string ensures RefusedDoc(n, NoteRefusal(m, l, n), d) {
      StepKeepsDoc(l, n, m, d);
    }
    forall g | 0 <= g < |n.server.log|
      ensures RefusedRow(n, Watched(w, l, n).versions, NoteRefusal(m, l, n), g)
    {
      StepKeepsRow(l, w, n, m, g);
    }
  }

  lemma NothingRefusedYet(start: Star, uid: string)
    requires Initial(start) && uid in start.clients
    ensures RefusedInv(LinkOf(start, uid), [], map[])
  {}

  lemma {:induction false} RefusalsHold(start: Star, steps: seq<Step>, uid: string)
    requires Initial(start) && uid in start.clients
    ensures RefusedInv(LinkOf(Run(start, steps), uid), WatchRun(start, steps, uid).versions, RefusedRun(start, steps, uid))
  {
    hide Apply, StarInv, FullInv, WatchInv, Watched, Moved, RefusedInv, NoteRefusal;
    if steps == [] {
      NothingRefusedYet(start, uid);
    } else {
      var init, last := steps[..|steps| - 1], steps[|steps| - 1];
      RefusalsHold(start, init, uid);
      WatchHolds(start, init, uid);
      WatchHolds(start, steps, uid);
      RunKeepsInv(start, init);
      RunKeepsFullInv(start, init, uid);
      RunKeepsFullInv(start, steps, uid);
      StepMoves(Run(start, init), uid, last);
      StepKeepsRefusals(LinkOf(Run(start, init), uid), WatchRun(start, init, uid), LinkOf(Run(start, steps), uid),
                        RefusedRun(start, init, uid));
    }
  }

  // ---------- the theorems ----------

  /** The row's version was at the client when the last delivery of its document was refused. */
  ghost predicate HadArrivedBeforeRefusal(l: Link, versions: seq<Version>, m: map<string, Clock>, g: nat)
    requires g < |versions| && g < |l.server.log|
  {
    l.server.log[g].docId in m && Covers(m[l.server.log[g].docId], versions[g].rev)
  }

  lemma RefusedRowHasArrived(l: Link, versions: seq<Version>, m: map<string, Clock>, g: nat)
    requires FullInv(l) && IsHistory(l.server, versions) && g < |versions| == |l.server.log|
    requires RefusedRow(l, versions, m, g) && RefusedDoc(l, m, l.server.log[g].docId)
    requires l.server.log[g].docId in l.skipped
    ensures Arrived(l, versions, g) <==> HadArrivedBeforeRefusal(l, versions, m, g)
  {
    var d, v, own := l.server.log[g].docId, versions[g].rev, l.client.uid;
    FullInvOfDoc(l, d);
    OldIsBelow(l.server, versions, g);
    assert l.client.docs[d] in Held(l.client, d);
    hide FullInv, IsHistory, DocInv, Covers, Foreign, Positive;
    if Covers(m[d], v) {
      CoversTransitive(RevOf(l.client, d), m[d], v);
    }
    if Covers(RevOf(l.client, d), v) {
      if NewsFor(own, Held(l.client, d), v) {
        NewIsNotCovered(own, Held(l.client, d), v, l.client.docs[d]);
      } else {
        CoveredByLess(own, RevOf(l.client, d), m[d], v);
      }
    }
  }

  /** What is covered is covered by less, if the own counter is not what matters. */
  lemma CoveredByLess(own: string, now: Clock, before: Clock, v: Clock)
    requires Foreign(own, now, before) && Covers(now, v) && Positive(v) && Count(v, own) <= Count(before, own)
    ensures Covers(before, v)
  {
    forall k <- v.Keys ensures k in before && v[k] <= before[k] {
      assert k in now.Keys;
      if k == own {
        assert 1 <= v[k] <= Count(before, own);
      }
    }
  }

  /**
   * In every run: of a document whose last delivery was refused, exactly those logged versions are
   * covered that were before that delivery. Nothing arrives by any other way.
   */
  lemma RefusedExactlyWhen(start: Star, steps: seq<Step>, uid: string, g: nat)
    requires Initial(start) && uid in start.clients
    ensures var l, w := LinkOf(Run(start, steps), uid), WatchRun(start, steps, uid);
      && |w.versions| == |l.server.log|
      && (g < |l.server.log| && l.server.log[g].docId in l.skipped ==>
           (Arrived(l, w.versions, g) <==> HadArrivedBeforeRefusal(l, w.versions, RefusedRun(start, steps, uid), g)))
  {
    hide Run, WatchRun, RefusedRun, FullInv, IsHistory, Arrived, HadArrivedBeforeRefusal, RefusedDoc, RefusedRow;
    VersionsAreLogged(start, steps, uid);
    RunKeepsFullInv(start, steps, uid);
    RefusalsHold(start, steps, uid);
    var l, w := LinkOf(Run(start, steps), uid), WatchRun(start, steps, uid);
    if g < |l.server.log| && l.server.log[g].docId in l.skipped {
      RefusedRowHasArrived(l, w.versions, RefusedRun(start, steps, uid), g);
    }
  }

  /**
   * In every run: the version logged at a recorded generation has arrived, unless the document has a
   * later row beyond the recorded generation that was reported to a download abandoned since the last
   * one was completed. If the last delivery of its document was refused, it has arrived exactly if it
   * had before.
   */
  lemma RecordedVersionsHaveArrived(start: Star, steps: seq<Step>, uid: string, g: nat)
    requires Initial(start) && uid in start.clients
    ensures var l, w := LinkOf(Run(start, steps), uid), WatchRun(start, steps, uid);
      g < Known(l).gen ==>
        && g < |w.versions| == |l.server.log|
        && var d := l.server.log[g].docId;
          if d in l.skipped then
            Arrived(l, w.versions, g) <==> HadArrivedBeforeRefusal(l, w.versions, RefusedRun(start, steps, uid), g)
          else Arrived(l, w.versions, g) || LoggedAgain(l, d, w.reported)
  {
    hide Run, WatchRun, RefusedRun, WatchInv, FullInv, Arrived, LoggedAgain, HadArrivedBeforeRefusal;
    WatchHolds(start, steps, uid);
    RunKeepsFullInv(start, steps, uid);
    RefusedExactlyWhen(start, steps, uid, g);
    if g < Known(LinkOf(Run(start, steps), uid)).gen {
      KnownRows(LinkOf(Run(start, steps), uid), WatchRun(start, steps, uid), g);
    }
  }

  /**
   * Once a download has completed there are no abandoned ones: all that was recorded has arrived, but
   * for what had not before a refused delivery of its document.
   */
  lemma CompletedDownloadsHaveArrived(start: Star, steps: seq<Step>, uid: string, g: nat)
    requires Initial(start) && uid in start.clients
    ensures var l, n := LinkOf(Run(start, steps), uid), CompleteStep(LinkOf(Run(start, steps), uid));
      var w := WatchRun(start, steps, uid);
      n != l && g < Known(n).gen ==>
        && g < |w.versions| == |l.server.log| && n.server == l.server
        && if l.server.log[g].docId in n.skipped then
            Arrived(n, w.versions, g) <==> HadArrivedBeforeRefusal(n, w.versions, RefusedRun(start, steps, uid), g)
          else Arrived(n, w.versions, g)
  {
    hide Run, WatchRun, RefusedRun, WatchInv, Arrived, FullInv, CompleteStep, HadArrivedBeforeRefusal;
    WatchHolds(start, steps, uid);
    RunKeepsFullInv(start, steps, uid);
    var l, w := LinkOf(Run(start, steps), uid), WatchRun(start, steps, uid);
    if CompleteStep(l) != l && g < Known(CompleteStep(l)).gen {
      CompletedRows(l, w, g);
      CompletingKeepsSides(l);
      RefusedExactlyWhen(start, steps, uid, g);
      CompletingShowsTheSame(l, w.versions, RefusedRun(start, steps, uid), g);
    }
  }

  lemma CompletingShowsTheSame(l: Link, versions: seq<Version>, m: map<string, Clock>, g: nat)
    requires g < |versions| && g < |l.server.log| && CompleteStep(l).server == l.server
    ensures Arrived(CompleteStep(l), versions, g) == Arrived(l, versions, g)
    ensures HadArrivedBeforeRefusal(CompleteStep(l), versions, m, g) == HadArrivedBeforeRefusal(l, versions, m, g)
  {}

  /** In a careful run, then, a completed download leaves nothing out at all. */
  lemma CarefulDownloadsHaveArrived(start: Star, steps: seq<Step>, uid: string, g: nat)
    requires Initial(start) && uid in start.clients && CarefulRun(start, steps)
    ensures var l, n := LinkOf(Run(start, steps), uid), CompleteStep(LinkOf(Run(start, steps), uid));
      var w := WatchRun(start, steps, uid);
      n != l && g < Known(n).gen ==> g < |w.versions| == |n.server.log| && Arrived(n, w.versions, g)
  {
    hide Run, WatchRun, RefusedRun, Arrived, CompleteStep, CarefulRun, HadArrivedBeforeRefusal;
    CompletedDownloadsHaveArrived(start, steps, uid, g);
    CarefulRunIsApart(start, steps);
    var l := LinkOf(Run(start, steps), uid);
    assert Apart(l);
    CompletingKeepsSides(l);
  }

  /**
   * Exactly what is missing when a download is given up, at whatever point: of a document still to
   * come, what had not arrived when the download began; of one whose last delivery was refused, what
   * had not arrived before; of any other, nothing.
   */
  lemma AbandonedExactlyWhen(start: Star, steps: seq<Step>, uid: string, g: nat)
    requires Initial(start) && uid in start.clients
    ensures var l, w := LinkOf(Run(start, steps), uid), WatchRun(start, steps, uid);
      l.session.phase == Receiving && g < l.session.newPoint.gen ==>
        && g < |w.versions| == |l.server.log|
        && var d := l.server.log[g].docId;
          Arrived(l, w.versions, g) <==>
            if Pending(l.session, d) then HadArrived(l, w, g)
            else if d in l.skipped then
              HadArrivedBeforeRefusal(l, w.versions, RefusedRun(start, steps, uid), g)
            else true
  {
    hide Run, WatchRun, RefusedRun, WatchInv, Arrived, HadArrived, HadArrivedBeforeRefusal, FullInv;
    WatchHolds(start, steps, uid);
    RunKeepsFullInv(start, steps, uid);
    RefusedExactlyWhen(start, steps, uid, g);
    var l, w := LinkOf(Run(start, steps), uid), WatchRun(start, steps, uid);
    if l.session.phase == Receiving && g < l.session.newPoint.gen {
      ReportedRows(l, w, g);
    }
  }
}
