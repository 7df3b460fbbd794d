/**
 * The versions the server ever logged, and which of them a client's version covers while sessions come
 * and go. The log itself names documents only; here each of its rows is paired with the version it
 * stands for.
 */
module History {
  import opened ChangeLog
  import opened Documents
  import opened Guarantees
  import opened LinkClient
  import opened LinkInvariant
  import opened LinkReceive
  import opened LinkRefusal
  import opened LinkRely
  import opened LinkSend
  import opened Links
  import opened Replicas
  import opened Star
  import opened VectorClocks
  import opened Wrappers

  /**
   * What somebody watching one link writes down: the version of each row of the server's log; the
   * generation reported by the last download begun since one was completed; the client's replica when
   * that download began.
   */
  datatype Watch = Watch(versions: seq<Version>, reported: nat, found: Replica)

  ghost function VersionOf(r: Replica, d: string): Version {
    if d in r.docs then r.docs[d] else Version(ZERO, None)
  }

  ghost function LastLogged(r: Replica): Version
    requires r.log != []
  {
    VersionOf(r, r.log[|r.log| - 1].docId)
  }

  predicate Begins(l: Link, n: Link) {
    l.session.phase == Sending && n.session.phase == Receiving
  }

  predicate Ends(l: Link, n: Link) {
    l.session.phase == Receiving && n.session.phase == Finished
  }

  ghost function Watched(w: Watch, l: Link, n: Link): Watch {
    Watch(
      if |l.server.log| < |n.server.log| then w.versions + [LastLogged(n.server)] else w.versions,
      if Begins(l, n) then n.session.newPoint.gen else if Ends(l, n) then 0 else w.reported,
      if Begins(l, n) then n.client else w.found)
  }

  ghost function WatchRun(start: Star, steps: seq<Step>, uid: string): Watch
    requires WellFormed(start) && uid in start.clients
  {
    if steps == [] then Watch([], 0, start.clients[uid])
    else
      var init := steps[..|steps| - 1];
      Watched(WatchRun(start, init, uid), LinkOf(Run(start, init), uid), LinkOf(Run(start, steps), uid))
  }

  // ---------- the history of the server ----------

  /** The version of a row is the current one of its document or an older one. */
  ghost predicate RowIsOld(r: Replica, versions: seq<Version>, g: nat)
    requires g < |versions| == |r.log|
  {
    var d := r.log[g].docId;
    Positive(versions[g].rev) && d in r.docs && Covers(r.docs[d].rev, versions[g].rev)
  }

  ghost predicate LastRowIsCurrent(r: Replica, versions: seq<Version>, d: string)
    requires |versions| == |r.log|
  {
    d in r.docs ==> 0 < LastGen(r.log, d) && versions[LastGen(r.log, d) - 1] == r.docs[d]
  }

  ghost predicate LaterIsNewer(r: Replica, versions: seq<Version>, g: nat, h: nat)
    requires g < h < |versions| == |r.log|
  {
    r.log[g].docId == r.log[h].docId ==> Newer(versions[h].rev, versions[g].rev)
  }

  /**
   * One version for every row. The last row of a document stands for its current version, and of two
   * rows of a document the later one is strictly newer.
   */
  ghost predicate IsHistory(r: Replica, versions: seq<Version>) {
    && |versions| == |r.log|
    && (forall g :: 0 <= g < |versions| ==> RowIsOld(r, versions, g))
    && (forall d: string :: LastRowIsCurrent(r, versions, d))
    && (forall g, h :: 0 <= g < h < |versions| ==> LaterIsNewer(r, versions, g, h))
  }

  /** The server logged a newer version of `d`. */
  ghost predicate Grew(r: Replica, t: Replica, d: string, v: Version) {
    && t.docs == r.docs[d := v]
    && (exists e: Entry :: e.docId == d && t.log == r.log + [e])
    && Positive(v.rev) && Newer(v.rev, RevOf(r, d))
  }

  lemma GrownIsNewer(r: Replica, versions: seq<Version>, d: string, v: Version, g: nat)
    requires |versions| == |r.log| && g < |versions| && RowIsOld(r, versions, g)
    requires Newer(v.rev, RevOf(r, d)) && r.log[g].docId == d
    ensures Newer(v.rev, versions[g].rev) && Covers(v.rev, versions[g].rev)
  {
    NewerIsStrictOrder(v.rev, RevOf(r, d), versions[g].rev);
  }

  lemma GrownRow(r: Replica, versions: seq<Version>, t: Replica, d: string, v: Version, e: Entry, g: nat)
    requires |versions| == |r.log| && g <= |versions| && (g < |versions| ==> RowIsOld(r, versions, g))
    requires t.docs == r.docs[d := v] && t.log == r.log + [e] && e.docId == d
    requires Positive(v.rev) && Newer(v.rev, RevOf(r, d))
    ensures RowIsOld(t, versions + [v], g)
  {
    CoversItself(v.rev);
    if g < |versions| && r.log[g].docId == d {
      GrownIsNewer(r, versions, d, v, g);
    }
    hide Covers, Positive, Newer;
  }

  lemma GrownLast(r: Replica, versions: seq<Version>, t: Replica, d: string, v: Version, e: Entry, x: string)
    requires |versions| == |r.log| && LastRowIsCurrent(r, versions, x)
    requires t.docs == r.docs[d := v] && t.log == r.log + [e] && e.docId == d
    ensures LastRowIsCurrent(t, versions + [v], x)
  {
    hide LastGen;
    LastGenAppend(r.log, e, x);
    assert LastGen(r.log, x) <= |r.log|;
  }

  lemma GrownPair(r: Replica, versions: seq<Version>, t: Replica, d: string, v: Version, e: Entry, g: nat, h: nat)
    requires |versions| == |r.log| && g < h <= |versions| && RowIsOld(r, versions, g)
    requires h < |versions| ==> LaterIsNewer(r, versions, g, h)
    requires t.log == r.log + [e] && e.docId == d && Newer(v.rev, RevOf(r, d))
    ensures LaterIsNewer(t, versions + [v], g, h)
  {
    if h == |versions| && r.log[g].docId == d {
      GrownIsNewer(r, versions, d, v, g);
    }
    hide Newer;
  }

  lemma GrownHistory(r: Replica, versions: seq<Version>, t: Replica, d: string, v: Version, e: Entry)
    requires IsHistory(r, versions)
    requires t.docs == r.docs[d := v] && t.log == r.log + [e] && e.docId == d
    requires Positive(v.rev) && Newer(v.rev, RevOf(r, d))
    ensures IsHistory(t, versions + [v])
  {
    hide RowIsOld, LastRowIsCurrent, LaterIsNewer, Positive, Newer;
    var longer := versions + [v];
    forall g | 0 <= g < |longer| ensures RowIsOld(t, longer, g) {
      GrownRow(r, versions, t, d, v, e, g);
    }
    forall x: string ensures LastRowIsCurrent(t, longer, x) {
      GrownLast(r, versions, t, d, v, e, x);
    }
    forall g, h | 0 <= g < h < |longer| ensures LaterIsNewer(t, longer, g, h) {
      GrownPair(r, versions, t, d, v, e, g, h);
    }
  }

  lemma SameHistory(r: Replica, versions: seq<Version>, t: Replica)
    requires IsHistory(r, versions) && t.docs == r.docs && t.log == r.log
    ensures IsHistory(t, versions)
  {
    assert forall g :: 0 <= g < |versions| ==> RowIsOld(t, versions, g) == RowIsOld(r, versions, g);
    assert forall d: string :: LastRowIsCurrent(t, versions, d) == LastRowIsCurrent(r, versions, d);
    assert forall g, h :: 0 <= g < h < |versions| ==> LaterIsNewer(t, versions, g, h) == LaterIsNewer(r, versions, g, h);
  }

  // ---------- what has arrived ----------

  /** The client's version of the document includes the one this row stands for. */
  ghost predicate Arrived(l: Link, versions: seq<Version>, g: nat)
    requires g < |versions| && g < |l.server.log|
  {
    Covers(RevOf(l.client, l.server.log[g].docId), versions[g].rev)
  }

  /** The document has a row beyond what is recorded, within what was reported. */
  ghost predicate LoggedAgain(l: Link, d: string, reported: nat) {
    exists h: nat :: Known(l).gen <= h < reported && h < |l.server.log| && l.server.log[h].docId == d
  }

  /** Up to the recorded generation. */
  ghost predicate KnownRow(l: Link, w: Watch, g: nat)
    requires g < |w.versions| && g < |l.server.log|
  {
    var d := l.server.log[g].docId;
    Arrived(l, w.versions, g) || d in l.skipped || LoggedAgain(l, d, w.reported)
  }

  /** Up to the generation reported by a download in progress. */
  ghost predicate ReportedRow(l: Link, w: Watch, g: nat)
    requires g < |w.versions| && g < |l.server.log|
  {
    var d := l.server.log[g].docId;
    && (!Pending(l.session, d) ==> Arrived(l, w.versions, g) || d in l.skipped)
    && Count(w.versions[g].rev, l.client.uid) <= Count(RevOf(w.found, d), l.client.uid)
  }

  /** A version on its way includes all that was logged of its document when the download began. */
  ghost predicate ReturnedCovers(l: Link, w: Watch, m: nat)
    requires m < |l.session.returned| && m < |l.session.toReturn| && |w.versions| == |l.server.log|
  {
    forall g | 0 <= g < l.session.newPoint.gen && g < |w.versions| ::
      l.server.log[g].docId == l.session.toReturn[m].docId ==> Covers(l.session.returned[m].rev, w.versions[g].rev)
  }

  /** Of a document still to come the client knows no more of others than when the download began. */
  ghost predicate AsFound(l: Link, w: Watch, d: string) {
    Pending(l.session, d) ==>
      && Covers(RevOf(l.client, d), RevOf(w.found, d))
      && forall v <- Held(l.client, d) :: Foreign(l.client.uid, v.rev, RevOf(w.found, d))
  }

  ghost predicate WatchInv(l: Link, w: Watch) {
    && IsHistory(l.server, w.versions) && |w.versions| == |l.server.log|
    && Known(l).gen <= |l.server.log|
    && match l.session.phase
       case Receiving =>
         && w.reported == l.session.newPoint.gen <= |l.server.log|
         && (forall g :: 0 <= g < w.reported ==> ReportedRow(l, w, g))
         && (forall m :: l.session.delivered <= m < |l.session.returned| && m < |l.session.toReturn| ==>
              ReturnedCovers(l, w, m))
         && (forall d: string :: AsFound(l, w, d))
       case _ => forall g :: 0 <= g < Known(l).gen ==> KnownRow(l, w, g)
  }

  /** While a download is in progress, the weaker statement holds all the same. */
  lemma ReportedIsKnown(l: Link, w: Watch, g: nat)
    requires Shape(l) && l.session.phase == Receiving && IsHistory(l.server, w.versions)
    requires w.reported == l.session.newPoint.gen <= |l.server.log|
    requires g < Known(l).gen <= |l.server.log| && ReportedRow(l, w, g)
    ensures KnownRow(l, w, g)
  {
    hide IsHistory, Covers;
    var d, ss := l.server.log[g].docId, l.session;
    if Pending(ss, d) {
      var c := ss.toReturn[IndexOf(ss.toReturn, d)];
      assert LoggedChange(l.server.log, c);
      assert l.server.log[c.gen - 1].docId == d;
      var h: nat := c.gen - 1;
      assert Known(l).gen <= h < w.reported;
    }
  }

  // ---------- writes on the server ----------

  /** Both the log and its history have at most become longer. */
  ghost predicate Longer(l: Link, w: Watch, n: Link, m: Watch) {
    && n == l.(server := n.server) && n.server.uid == l.server.uid
    && m == w.(versions := m.versions)
    && l.server.log <= n.server.log && w.versions <= m.versions
    && IsHistory(n.server, m.versions) && |m.versions| == |n.server.log| && |w.versions| == |l.server.log|
  }

  lemma LongerKeepsRow(l: Link, w: Watch, n: Link, m: Watch, g: nat)
    requires Longer(l, w, n, m) && g < |w.versions|
    ensures n.server.log[g] == l.server.log[g] && m.versions[g] == w.versions[g]
    ensures Arrived(l, w.versions, g) ==> Arrived(n, m.versions, g)
    ensures ReportedRow(l, w, g) ==> ReportedRow(n, m, g)
    ensures KnownRow(l, w, g) ==> KnownRow(n, m, g)
  {
    hide IsHistory, Covers;
    if LoggedAgain(l, l.server.log[g].docId, w.reported) {
      var h: nat :| Known(l).gen <= h < w.reported && h < |l.server.log| && l.server.log[h].docId == l.server.log[g].docId;
      assert n.server.log[h] == l.server.log[h];
    }
  }

  lemma LongerKeepsReturned(l: Link, w: Watch, n: Link, m: Watch, k: nat)
    requires Longer(l, w, n, m) && k < |l.session.returned| && k < |l.session.toReturn|
    requires l.session.newPoint.gen <= |l.server.log| && ReturnedCovers(l, w, k)
    ensures ReturnedCovers(n, m, k)
  {
    hide IsHistory, Covers;
    assert forall g :: 0 <= g < |w.versions| ==> m.versions[g] == w.versions[g] && n.server.log[g] == l.server.log[g];
  }

  lemma LongerKeepsRows(l: Link, w: Watch, n: Link, m: Watch)
    requires WatchInv(l, w) && Longer(l, w, n, m)
    ensures WatchInv(n, m)
  {
    hide IsHistory, ReportedRow, KnownRow, ReturnedCovers, Arrived, Foreign, Covers;
    assert Known(n) == Known(l);
    if l.session.phase == Receiving {
      forall g | 0 <= g < m.reported ensures ReportedRow(n, m, g) {
        LongerKeepsRow(l, w, n, m, g);
      }
      forall k | l.session.delivered <= k < |l.session.returned| && k < |l.session.toReturn|
        ensures ReturnedCovers(n, m, k)
      {
        LongerKeepsReturned(l, w, n, m, k);
      }
      assert forall x: string :: AsFound(l, w, x) ==> AsFound(n, m, x);
    } else {
      forall g | 0 <= g < Known(n).gen ensures KnownRow(n, m, g) {
        LongerKeepsRow(l, w, n, m, g);
      }
    }
  }

  lemma GrowthIsLonger(l: Link, w: Watch, t: Replica, d: string, v: Version)
    requires IsHistory(l.server, w.versions) && |w.versions| == |l.server.log|
    requires Grew(l.server, t, d, v) && t.uid == l.server.uid
    ensures var n := l.(server := t); Longer(l, w, n, Watched(w, l, n))
  {
    var e: Entry :| e.docId == d && t.log == l.server.log + [e];
    hide IsHistory, Covers, Positive, Newer;
    GrownHistory(l.server, w.versions, t, d, v, e);
    assert LastLogged(t) == v;
    assert |w.versions + [v]| == |t.log|;
  }

  lemma IdleIsLonger(l: Link, w: Watch, t: Replica)
    requires IsHistory(l.server, w.versions) && |w.versions| == |l.server.log|
    requires t.uid == l.server.uid && t.docs == l.server.docs && t.log == l.server.log
    ensures var n := l.(server := t); Longer(l, w, n, Watched(w, l, n))
  {
    hide IsHistory;
    SameHistory(l.server, w.versions, t);
  }

  lemma WroteIsGrowth(own: string, r: Replica, t: Replica, d: string, v: Version)
    requires ServerWrote(own, r, t, d, v)
    ensures Grew(r, t, d, v)
  {
    hide Covers;
    var k :| k in v.rev && k != own && (k in RevOf(r, d) ==> RevOf(r, d)[k] < v.rev[k]);
    assert v.rev != RevOf(r, d);
  }

  // ---------- writes at the client ----------

  /** The client's version of every document includes what it was, and of others it learned nothing. */
  ghost predicate Kept(r: Replica, t: Replica) {
    && t.uid == r.uid && t.known == r.known
    && (forall d: string :: Covers(RevOf(t, d), RevOf(r, d)))
    && (forall d: string, v :: v in Held(t, d) ==> Derived(r.uid, v.rev, Held(r, d)))
  }

  lemma HeldDerivesFromItself(r: Replica, d: string)
    requires forall v <- Held(r, d) :: Positive(v.rev)
    ensures forall v <- Held(r, d) :: Derived(r.uid, v.rev, Held(r, d))
  {
    forall v <- Held(r, d) ensures Derived(r.uid, v.rev, Held(r, d)) {
      HeldIsDerived(r.uid, v, Held(r, d));
    }
  }

  lemma ClientChangeIsKept(l: Link, t: Replica, d: string)
    requires LinkInv(l) && (ClientWrote(l.client, t, d) || ClientSetConflicts(l.client, t, d))
    ensures Kept(l.client, t)
  {
    hide LinkInv, Derived, Covers, GoodVersion, Held;
    forall x: string
      ensures Covers(RevOf(t, x), RevOf(l.client, x))
      ensures forall v <- Held(t, x) :: Derived(l.client.uid, v.rev, Held(l.client, x))
    {
      CoversItself(RevOf(l.client, x));
      if x != d {
        SameElsewhere(l.client, t, d, x);
        HeldIsPositive(l, x);
        HeldDerivesFromItself(l.client, x);
      }
    }
  }

  lemma KeptRowStays(l: Link, versions: seq<Version>, t: Replica, g: nat)
    requires Kept(l.client, t) && g < |versions| && g < |l.server.log| && Arrived(l, versions, g)
    ensures Arrived(l.(client := t), versions, g)
  {
    hide Derived;
    var d := l.server.log[g].docId;
    CoversTransitive(RevOf(t, d), RevOf(l.client, d), versions[g].rev);
  }

  lemma KeptIsAsFound(l: Link, w: Watch, t: Replica, d: string)
    requires Kept(l.client, t) && AsFound(l, w, d)
    ensures AsFound(l.(client := t), w, d)
  {
    hide Derived, Covers, Foreign;
    if Pending(l.session, d) {
      CoversTransitive(RevOf(t, d), RevOf(l.client, d), RevOf(w.found, d));
      forall v <- Held(t, d) ensures Foreign(l.client.uid, v.rev, RevOf(w.found, d)) {
        DerivedIsForeign(l.client.uid, v.rev, Held(l.client, d), RevOf(w.found, d));
      }
    }
  }

  lemma ClientChangeKeepsRows(l: Link, w: Watch, t: Replica)
    requires WatchInv(l, w) && Kept(l.client, t)
    ensures WatchInv(l.(client := t), Watched(w, l, l.(client := t)))
  {
    hide IsHistory, Arrived;
    var n := l.(client := t);
    assert Watched(w, l, n) == w;
    assert Known(n) == Known(l);
    if l.session.phase == Receiving {
      forall g | 0 <= g < w.reported ensures ReportedRow(n, w, g) {
        assert ReportedRow(l, w, g);
        if Arrived(l, w.versions, g) {
          KeptRowStays(l, w.versions, t, g);
        }
      }
      forall k | l.session.delivered <= k < |l.session.returned| && k < |l.session.toReturn|
        ensures ReturnedCovers(n, w, k)
      {
        assert ReturnedCovers(l, w, k);
      }
      forall x: string ensures AsFound(n, w, x) {
        KeptIsAsFound(l, w, t, x);
      }
    } else {
      forall g | 0 <= g < Known(n).gen ensures KnownRow(n, w, g) {
        assert KnownRow(l, w, g);
        if Arrived(l, w.versions, g) {
          KeptRowStays(l, w.versions, t, g);
        }
      }
    }
  }

  // ---------- steps outside a download ----------

  /** Nothing that the rows are about has changed, and no download is in progress. */
  ghost predicate Noted(l: Link, n: Link) {
    && l.session.phase != Receiving && n.session.phase != Receiving
    && n.client == l.client && n.skipped == l.skipped
    && n.server.uid == l.server.uid && n.server.docs == l.server.docs && n.server.log == l.server.log
  }

  lemma NotingKeepsRows(l: Link, w: Watch, n: Link)
    requires WatchInv(l, w) && Noted(l, n)
    ensures Watched(w, l, n) == w && WatchInv(n, w)
  {
    hide IsHistory, Covers;
    SameHistory(l.server, w.versions, n.server);
    forall g | 0 <= g < Known(n).gen ensures KnownRow(n, w, g) {
      assert KnownRow(l, w, g);
    }
  }

  /** Giving up a download leaves what holds while it is in progress, in its weaker form. */
  lemma AbandoningKeepsRows(l: Link, w: Watch)
    requires FullInv(l) && WatchInv(l, w) && l.session.phase == Receiving
    ensures var n := l.(session := NO_SESSION);
      WatchInv(n, Watched(w, l, n))
  {
    hide IsHistory, DocInv, RefusalDoc, ReportedRow, ReturnedCovers, AsFound, Arrived;
    var n := l.(session := NO_SESSION);
    forall g | 0 <= g < Known(n).gen ensures KnownRow(n, w, g) {
      assert ReportedRow(l, w, g);
      ReportedIsKnown(l, w, g);
      ArrivedIgnoresSession(l, n, w.versions, g);
    }
  }

  lemma ArrivedIgnoresSession(l: Link, n: Link, versions: seq<Version>, g: nat)
    requires n.server == l.server && n.client == l.client && g < |versions| && g < |l.server.log|
    ensures Arrived(n, versions, g) == Arrived(l, versions, g)
  {}

  lemma AnsweredIsGrowth(l: Link, d: string, x: Version, o: Outcome, t: Replica)
    requires Answered(l, d, x, o, t) && t != l.server
    ensures d in t.docs && Grew(l.server, t, d, t.docs[d])
  {
    hide Newer;
  }

  lemma AnswerKeepsRows(l: Link, w: Watch, d: string, x: Version, o: Outcome, t: Replica)
    requires WatchInv(l, w) && AboutToAnswer(l, d, x) && Answered(l, d, x, o, t)
    ensures var n := AfterAnswer(l, d, o, t); WatchInv(n, Watched(w, l, n))
  {
    hide IsHistory, Grew, Answered, KnownRow, ReportedRow;
    AnsweredGrowsLog(l, d, x, o, t);
    var mid, n := l.(server := t), AfterAnswer(l, d, o, t);
    if t != l.server {
      AnsweredIsGrowth(l, d, x, o, t);
      GrowthIsLonger(l, w, t, d, t.docs[d]);
    } else {
      IdleIsLonger(l, w, t);
    }
    LongerKeepsRows(l, w, mid, Watched(w, l, mid));
    NotingKeepsRows(mid, Watched(w, l, mid), n);
    assert Watched(w, l, n) == Watched(w, l, mid);
  }

  lemma InsertKeepsRows(l: Link, w: Watch)
    requires FullInv(l) && WatchInv(l, w) && l.session.phase == Sending
    ensures WatchInv(InsertStep(l), Watched(w, l, InsertStep(l)))
  {
    var n, ss := InsertStep(l), l.session;
    if n == l || (n.server == l.server && n.session == NO_SESSION) {
      hide WatchInv, Merge;
      NotingKeepsRows(l, w, n);
    } else {
      var k := |ss.outcomes|;
      var d, x := ss.changes[k].docId, ss.sent[k];
      var taken := Merge(l.server, d, x, false).value;
      UploadIsGood(l);
      FullInvOfDoc(l, d);
      MergeIsAnswered(l, d, x);
      hide WatchInv, FullInv, DocInv, Answered, RefusalDoc, Merge, GoodUpload, Shape;
      AnswerKeepsRows(l, w, d, x, taken.outcome, taken.replica);
      assert n == AfterAnswer(l, d, taken.outcome, taken.replica);
    }
  }

  // ---------- a download begins ----------

  lemma OldIsBelow(r: Replica, versions: seq<Version>, g: nat)
    requires IsHistory(r, versions) && g < |versions|
    ensures |versions| == |r.log| && RowIsOld(r, versions, g)
  {}

  lemma FoundRow(l: Link, w: Watch, n: Link, m: Watch, g: nat)
    requires FullInv(l) && FindStep(l) != l && n == FindStep(l)
    requires m == Watch(w.versions, n.session.newPoint.gen, l.client)
    requires |w.versions| == |l.server.log| && g < |w.versions| && RowIsOld(l.server, w.versions, g)
    ensures ReportedRow(n, m, g)
  {
    var d := l.server.log[g].docId;
    hide LinkInv, Positive;
    FullInvOfDoc(l, d);
    CountGrows(RevOf(l.server, d), w.versions[g].rev, l.client.uid);
    if !Pending(n.session, d) {
      NotFoundIsCaughtUp(l, d);
      if CaughtUp(l, d) {
        CoversTransitive(RevOf(l.client, d), RevOf(l.server, d), w.versions[g].rev);
      }
    }
    hide FullInv, Covers, Changes, ToReturn, Honest, SessionDoc, RefusalDoc, LastGen;
  }

  lemma FindKeepsRows(l: Link, w: Watch)
    requires FullInv(l) && WatchInv(l, w) && FindStep(l) != l
    ensures WatchInv(FindStep(l), Watched(w, l, FindStep(l)))
  {
    var n := FindStep(l);
    var m := Watch(w.versions, n.session.newPoint.gen, l.client);
    SentShape(l);
    AdvanceKeepsFullInv(l, Find);
    assert Shape(l);
    hide LinkInv, Changes, ToReturn, DocInv, RefusalDoc, IsHistory, ReportedRow, Covers, Foreign;
    assert Watched(w, l, n) == m;
    forall g | 0 <= g < m.reported ensures ReportedRow(n, m, g) {
      OldIsBelow(l.server, w.versions, g);
      FoundRow(l, w, n, m, g);
    }
    forall d: string ensures AsFound(n, m, d) {
      CoversItself(RevOf(l.client, d));
      FoundTopped(l, d);
    }
  }

  lemma FoundTopped(l: Link, d: string)
    requires FullInv(l)
    ensures Topped(l.client, d)
  {
    assert RefusalDoc(l, d);
  }

  // ---------- a download goes on ----------

  lemma ReturnedRow(l: Link, w: Watch, n: Link)
    requires IsHistory(l.server, w.versions) && |w.versions| == |l.server.log|
    requires n == ReturnStep(l) && n != l && n.session.phase == Receiving
    ensures ReturnedCovers(n, w, |l.session.returned|)
  {
    var d := l.session.toReturn[|l.session.returned|].docId;
    hide IsHistory, Covers, Positive;
    forall g | 0 <= g < l.session.newPoint.gen && g < |w.versions|
      ensures l.server.log[g].docId == d ==> Covers(l.server.docs[d].rev, w.versions[g].rev)
    {
      OldIsBelow(l.server, w.versions, g);
    }
  }

  lemma ReturnKeepsRows(l: Link, w: Watch)
    requires FullInv(l) && WatchInv(l, w) && ReturnStep(l) != l
    ensures WatchInv(ReturnStep(l), Watched(w, l, ReturnStep(l)))
  {
    hide FullInv, IsHistory, Covers, Foreign, Arrived;
    var n := ReturnStep(l);
    if n.session == NO_SESSION {
      AbandoningKeepsRows(l, w);
    } else {
      ReturnedRow(l, w, n);
      assert Watched(w, l, n) == w;
      forall g | 0 <= g < w.reported ensures ReportedRow(n, w, g) {
        assert ReportedRow(l, w, g);
        ArrivedIgnoresSession(l, n, w.versions, g);
      }
      forall k | n.session.delivered <= k < |n.session.returned| && k < |n.session.toReturn|
        ensures ReturnedCovers(n, w, k)
      {
        if k < |l.session.returned| {
          assert ReturnedCovers(l, w, k);
        }
      }
      forall d: string ensures AsFound(n, w, d) {
        assert AsFound(l, w, d);
      }
    }
  }

  /** What the client makes of a delivery, seen from one document. */
  ghost predicate DeliveredSo(l: Link, n: Link, d: string)
    requires AboutToDeliverSome(l)
  {
    var c, v := l.session.toReturn[l.session.delivered], l.session.returned[l.session.delivered];
    if d == c.docId then !Pending(n.session, d) && (d in n.skipped || Covers(RevOf(n.client, d), v.rev))
    else
      && Pending(n.session, d) == Pending(l.session, d)
      && (d in n.skipped <==> d in l.skipped)
      && RevOf(n.client, d) == RevOf(l.client, d)
      && Held(n.client, d) == Held(l.client, d)
  }

  lemma AbsorbedCovers(l: Link, d: string, v: Version, t: Replica)
    requires Absorbed(l, d, v, t)
    ensures Covers(RevOf(t, d), v.rev)
  {
    hide Rewrote, GoodVersion;
  }

  lemma DeliveryOfThis(l: Link)
    requires FullInv(l) && AboutToDeliverSome(l)
    ensures DeliveredSo(l, DeliverStep(l), l.session.toReturn[l.session.delivered].docId)
  {
    var c, v := l.session.toReturn[l.session.delivered], l.session.returned[l.session.delivered];
    var d, n := c.docId, DeliverStep(l);
    DownloadIsGood(l);
    HeldIsPositive(l, d);
    IndexIsUnique(l.session.toReturn, l.session.delivered);
    hide FullInv, LinkInv, Refuses, Merge, DeliverStep, Covers, Positive, RefusalDoc;
    DeliverIsRefusal(l, d, v);
    if !Refuses(l.client, d, v) {
      DeliverIsDelivery(l, d, v);
      DownloadIsVersion(l, d, v);
      hide PutDocIfNewer, GoodDownload;
      var t := Merge(l.client, d, v, true).value.replica;
      MergeIsAbsorbed(l, d, v);
      AbsorbedCovers(l, d, v, t);
      hide Absorbed;
      assert RevOf(n.client, d) == RevOf(t, d);
    }
  }

  lemma DeliveryOfOthers(l: Link, d: string)
    requires FullInv(l) && AboutToDeliverSome(l) && d != l.session.toReturn[l.session.delivered].docId
    ensures DeliveredSo(l, DeliverStep(l), d)
  {
    var c, v := l.session.toReturn[l.session.delivered], l.session.returned[l.session.delivered];
    hide FullInv, PutDocIfNewer, AfterPut;
    AfterPutFrame(l.client, c.docId, v, true, l.server.uid, PointOf(c));
    SameElsewhere(l.client, AfterPut(l.client, c.docId, v, true, l.server.uid, PointOf(c)), c.docId, d);
    assert IndexOf(l.session.toReturn, d) != l.session.delivered;
  }

  lemma DeliveredRow(l: Link, w: Watch, n: Link, g: nat)
    requires g < l.session.newPoint.gen && g < |w.versions| == |l.server.log| == |n.server.log|
    requires AboutToDeliverSome(l) && n.server.log == l.server.log && n.client.uid == l.client.uid
    requires DeliveredSo(l, n, l.server.log[g].docId)
    requires ReportedRow(l, w, g) && ReturnedCovers(l, w, l.session.delivered)
    ensures ReportedRow(n, w, g)
  {
    hide Covers;
    var d, v := l.server.log[g].docId, l.session.returned[l.session.delivered];
    if d == l.session.toReturn[l.session.delivered].docId && d !in n.skipped {
      CoversTransitive(RevOf(n.client, d), v.rev, w.versions[g].rev);
    }
  }

  lemma DeliverKeepsRows(l: Link, w: Watch)
    requires FullInv(l) && WatchInv(l, w) && AboutToDeliverSome(l)
    ensures WatchInv(DeliverStep(l), Watched(w, l, DeliverStep(l)))
  {
    var n := DeliverStep(l);
    DeliverCountsItsLog(l);
    AdvanceKeepsFullInv(l, Deliver);
    assert Shape(n);
    hide FullInv, DeliverStep, IsHistory, Covers, Foreign, DocInv, GoodChanges, ReportedRow;
    assert Watched(w, l, n) == w;
    forall d: string ensures DeliveredSo(l, n, d) {
      if d == l.session.toReturn[l.session.delivered].docId {
        DeliveryOfThis(l);
      } else {
        DeliveryOfOthers(l, d);
      }
    }
    forall g | 0 <= g < w.reported ensures ReportedRow(n, w, g) {
      DeliveredRow(l, w, n, g);
    }
    forall k | n.session.delivered <= k < |n.session.returned| && k < |n.session.toReturn|
      ensures ReturnedCovers(n, w, k)
    {
      assert ReturnedCovers(l, w, k);
    }
    forall d: string ensures AsFound(n, w, d) {
      assert AsFound(l, w, d) && DeliveredSo(l, n, d);
    }
  }

  /** The end of a download: everything reported has arrived or was refused. */
  lemma CompletedRow(l: Link, w: Watch, g: nat)
    requires FullInv(l) && CompleteStep(l) != l && g < |w.versions| && g < |l.server.log| && ReportedRow(l, w, g)
    ensures var n := CompleteStep(l);
      Arrived(n, w.versions, g) || l.server.log[g].docId in n.skipped
  {
    hide FullInv, Covers;
    assert !Pending(l.session, l.server.log[g].docId);
  }

  lemma CompleteKeepsRows(l: Link, w: Watch)
    requires FullInv(l) && WatchInv(l, w) && CompleteStep(l) != l
    ensures WatchInv(CompleteStep(l), Watched(w, l, CompleteStep(l)))
  {
    hide FullInv, IsHistory, Arrived, ReportedRow, ReturnedCovers, AsFound;
    var n := CompleteStep(l);
    forall g | 0 <= g < Known(n).gen ensures KnownRow(n, Watched(w, l, n), g) {
      CompletedRow(l, w, g);
    }
  }

  // ---------- every step, seen from one link ----------

  /** What a step of anybody does to one link. */
  ghost predicate Moved(l: Link, n: Link) {
    || (n == l.(server := n.server) && ServerIdle(l.client.uid, l.server, n.server))
    || (n == l.(server := n.server) && exists d, v :: ServerWrote(l.client.uid, l.server, n.server, d, v))
    || (n == l.(client := n.client) && Kept(l.client, n.client))
    || exists step :: n == Advance(l, step)
  }

  lemma AdvanceKeepsRows(l: Link, w: Watch, step: SyncStep)
    requires FullInv(l) && WatchInv(l, w)
    ensures WatchInv(Advance(l, step), Watched(w, l, Advance(l, step)))
  {
    hide FullInv, WatchInv, Changes, ToReturn, Merge, PutDocIfNewer, AfterPut;
    var n := Advance(l, step);
    if l.session.phase != Receiving {
      if step == Insert && l.session.phase == Sending {
        InsertKeepsRows(l, w);
      } else if step == Find && n != l {
        FindKeepsRows(l, w);
      } else {
        NotingKeepsRows(l, w, n);
      }
    } else if n == l {
      StandingKeepsRows(l, w);
    } else {
      match step
      case Return => ReturnKeepsRows(l, w);
      case Deliver => DeliverKeepsRows(l, w);
      case Complete => CompleteKeepsRows(l, w);
      case Abort => AbandoningKeepsRows(l, w);
      case _ =>
    }
  }

  lemma StandingKeepsRows(l: Link, w: Watch)
    requires WatchInv(l, w)
    ensures WatchInv(l, Watched(w, l, l))
  {
    assert Watched(w, l, l) == w;
  }

  lemma MovedKeepsRows(l: Link, w: Watch, n: Link)
    requires FullInv(l) && WatchInv(l, w) && Moved(l, n)
    ensures WatchInv(n, Watched(w, l, n))
  {
    hide FullInv, IsHistory, KnownRow, ReportedRow, Kept, Advance, Grew;
    if step :| n == Advance(l, step) {
      hide WatchInv;
      AdvanceKeepsRows(l, w, step);
    } else if n == l.(client := n.client) && Kept(l.client, n.client) {
      ClientChangeKeepsRows(l, w, n.client);
    } else if ServerIdle(l.client.uid, l.server, n.server) {
      IdleIsLonger(l, w, n.server);
      LongerKeepsRows(l, w, n, Watched(w, l, n));
    } else {
      var d, v :| ServerWrote(l.client.uid, l.server, n.server, d, v);
      WroteIsGrowth(l.client.uid, l.server, n.server, d, v);
      GrowthIsLonger(l, w, n.server, d, v);
      LongerKeepsRows(l, w, n, Watched(w, l, n));
    }
  }

  lemma StandingMoves(l: Link)
    ensures Moved(l, l)
  {
    assert ServerIdle(l.client.uid, l.server, l.server);
  }

  lemma ServerMoves(l: Link, t: Replica)
    requires ServerIdle(l.client.uid, l.server, t) || exists d, v :: ServerWrote(l.client.uid, l.server, t, d, v)
    ensures Moved(l, l.(server := t))
  {
    hide ServerIdle, ServerWrote, Kept, Advance;
  }

  lemma ClientMoves(l: Link, a: LocalAction)
    requires FullInv(l) && Nameable(l.client, a) && Perform(l.client, a).Ok?
    ensures Moved(l, l.(client := Perform(l.client, a).value))
  {
    hide LinkInv, RefusalDoc, Nameable, Perform, ClientWrote, ClientSetConflicts, Kept;
    LocalActionIsChange(l, a);
    ClientChangeIsKept(l, Perform(l.client, a).value, a.docId);
  }

  lemma OwnStepMoves(l: Link, step: SyncStep)
    ensures Moved(l, Advance(l, step))
  {
    hide ServerIdle, ServerWrote, Kept, Advance;
  }

  lemma LocalStepMoves(st: Star, uid: string, who: string, a: LocalAction)
    requires StarInv(st) && uid in st.clients
    ensures var n := Apply(st, Step.Local(who, a));
      uid in n.clients && uid in n.sessions && uid in n.skipped && Moved(LinkOf(st, uid), LinkOf(n, uid))
  {
    hide LinkInv, RefusalDoc, Perform, Nameable, ServerWrote, Moved;
    var l := LinkOf(st, uid);
    StandingMoves(l);
    if who == st.server.uid {
      if !a.Resolve? && Perform(st.server, a).Ok? {
        ServerActionIsServerWrite(l, a);
        ServerMoves(l, Perform(st.server, a).value);
      }
    } else if who == uid && Nameable(l.client, a) && Perform(l.client, a).Ok? {
      ClientMoves(l, a);
    }
  }

  lemma SyncStepMoves(st: Star, uid: string, who: string, step: SyncStep)
    requires StarInv(st) && uid in st.clients
    ensures var n := Apply(st, Sync(who, step));
      uid in n.clients && uid in n.sessions && uid in n.skipped && Moved(LinkOf(st, uid), LinkOf(n, uid))
  {
    hide LinkInv, RefusalDoc, ServerWrote, ServerIdle, Moved, Advance;
    var l := LinkOf(st, uid);
    StandingMoves(l);
    if who == uid {
      OwnStepMoves(l, step);
    } else if who in st.clients {
      AdvanceSeenByOthers(LinkOf(st, who), step, uid);
      ServerMoves(l, Advance(LinkOf(st, who), step).server);
    }
  }

  lemma StartIsWatched(start: Star, uid: string)
    requires Initial(start) && uid in start.clients
    ensures WatchInv(LinkOf(start, uid), Watch([], 0, start.clients[uid]))
  {
    assert forall d: string :: LastRowIsCurrent(start.server, [], d);
  }

  lemma {:induction false} WatchHolds(start: Star, steps: seq<Step>, uid: string)
    requires Initial(start) && uid in start.clients
    ensures WatchInv(LinkOf(Run(start, steps), uid), WatchRun(start, steps, uid))
  {
    hide Apply, StarInv, WatchInv, Watched, Moved;
    if steps == [] {
      StartIsWatched(start, uid);
    } else {
      var init, last := steps[..|steps| - 1], steps[|steps| - 1];
      WatchHolds(start, init, uid);
      RunKeepsInv(start, init);
      RunKeepsFullInv(start, init, uid);
      match last {
        case Local(who, a) => LocalStepMoves(Run(start, init), uid, who, a);
        case Sync(who, step) => SyncStepMoves(Run(start, init), uid, who, step);
      }
      MovedKeepsRows(LinkOf(Run(start, init), uid), WatchRun(start, init, uid), LinkOf(Run(start, steps), uid));
    }
  }

  // ---------- what the watch tells ----------

  /** The watch pairs every row of the server's log with the version it stands for. */
  lemma VersionsAreLogged(start: Star, steps: seq<Step>, uid: string)
    requires Initial(start) && uid in start.clients
    ensures IsHistory(Run(start, steps).server, WatchRun(start, steps, uid).versions)
  {
    hide Run, WatchRun, Initial, IsHistory;
    WatchHolds(start, steps, uid);
  }

  lemma KnownRows(l: Link, w: Watch, g: nat)
    requires FullInv(l) && WatchInv(l, w) && g < Known(l).gen
    ensures g < |w.versions| == |l.server.log| && KnownRow(l, w, g)
  {
    assert Shape(l);
    hide FullInv, DocInv, IsHistory, Arrived, ReturnedCovers, AsFound;
    if l.session.phase == Receiving {
      assert ReportedRow(l, w, g);
      ReportedIsKnown(l, w, g);
    }
  }

  lemma CompletedRows(l: Link, w: Watch, g: nat)
    requires FullInv(l) && WatchInv(l, w) && CompleteStep(l) != l && g < Known(CompleteStep(l)).gen
    ensures var n := CompleteStep(l);
      g < |w.versions| == |l.server.log| && n.server == l.server
      && (Arrived(n, w.versions, g) || l.server.log[g].docId in n.skipped)
  {
    hide IsHistory, Arrived, ReturnedCovers, AsFound, FullInv, ReportedRow;
    CompletedRow(l, w, g);
  }

  lemma CompletingKeepsSides(l: Link)
    ensures CompleteStep(l).skipped == l.skipped && CompleteStep(l).server == l.server
  {}

  /** The row's version was at the client when the download began. */
  ghost predicate HadArrived(l: Link, w: Watch, g: nat)
    requires g < |w.versions| && g < |l.server.log|
  {
    Covers(RevOf(w.found, l.server.log[g].docId), w.versions[g].rev)
  }

  lemma PendingRow(l: Link, w: Watch, g: nat)
    requires g < |w.versions| && g < |l.server.log| && Positive(w.versions[g].rev)
    requires ReportedRow(l, w, g) && AsFound(l, w, l.server.log[g].docId)
    requires Pending(l.session, l.server.log[g].docId)
    requires Positive(RevOf(l.client, l.server.log[g].docId))
    ensures Arrived(l, w.versions, g) <==> HadArrived(l, w, g)
  {
    var d, v := l.server.log[g].docId, w.versions[g].rev;
    var now, found, own := RevOf(l.client, d), RevOf(w.found, d), l.client.uid;
    if Covers(found, v) {
      CoversTransitive(now, found, v);
    }
    if Covers(now, v) {
      if d in l.client.docs {
        assert l.client.docs[d] in Held(l.client, d);
      }
      assert Foreign(own, now, found);
      forall k <- v.Keys ensures k in found && v[k] <= found[k] {
        assert k in now.Keys;
        if k == own {
          assert 1 <= v[k] <= Count(found, own);
        }
      }
    }
  }

  lemma ReportedRows(l: Link, w: Watch, g: nat)
    requires FullInv(l) && WatchInv(l, w) && l.session.phase == Receiving && g < l.session.newPoint.gen
    ensures g < |w.versions| == |l.server.log|
    ensures var d := l.server.log[g].docId;
      && (Pending(l.session, d) ==> (Arrived(l, w.versions, g) <==> HadArrived(l, w, g)))
      && (!Pending(l.session, d) && d !in l.skipped ==> Arrived(l, w.versions, g))
  {
    hide IsHistory, Arrived, HadArrived, ReturnedCovers, AsFound, FullInv, Positive;
    var d := l.server.log[g].docId;
    assert ReportedRow(l, w, g) && AsFound(l, w, d);
    OldIsBelow(l.server, w.versions, g);
    if Pending(l.session, d) {
      CurrentIsPositive(l, d);
      PendingRow(l, w, g);
    }
  }

  lemma CurrentIsPositive(l: Link, d: string)
    requires FullInv(l)
    ensures Positive(RevOf(l.client, d))
  {
    FullInvOfDoc(l, d);
  }
}
