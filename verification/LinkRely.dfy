/** The link invariant survives what the server does on behalf of others. */
module LinkRely {
  import opened ChangeLog
  import opened Documents
  import opened LinkInvariant
  import opened Links
  import opened Replicas
  import opened VectorClocks

  /** The server moved `d` to a newer version `w` that a client `uid` did not write. */
  ghost predicate ServerWrote(own: string, s: Replica, t: Replica, d: string, w: Version) {
    && t.uid == s.uid
    && t.conflicts == s.conflicts
    && t.docs == s.docs[d := w]
    && (exists e: Entry :: e.docId == d && t.log == s.log + [e])
    && KnownOf(t, own) == KnownOf(s, own)
    && GoodVersion(w)
    && Covers(w.rev, RevOf(s, d))
    && Count(w.rev, own) == Count(RevOf(s, d), own)
    && GrowsElsewhere(own, RevOf(s, d), w.rev)
  }

  /** Nothing the client can see changed, except perhaps what the server knows of others. */
  ghost predicate ServerIdle(own: string, s: Replica, t: Replica) {
    && t.uid == s.uid
    && t.conflicts == s.conflicts
    && t.docs == s.docs
    && t.log == s.log
    && KnownOf(t, own) == KnownOf(s, own)
  }

  lemma OnLogGrows(log: seq<Entry>, e: Entry, p: SyncPoint)
    ensures OnLog(log, p) ==> OnLog(log + [e], p)
  {}

  lemma GoodChangesGrow(log: seq<Entry>, e: Entry, cs: seq<Change>)
    ensures GoodChanges(log, cs) ==> GoodChanges(log + [e], cs)
  {
    if GoodChanges(log, cs) {
      forall c <- cs ensures LoggedChange(log + [e], c) {
        assert LoggedChange(log, c);
      }
    }
  }

  lemma ExplainedGrows(own: string, x: Clock, s: Clock, w: Clock)
    requires Foreign(own, x, s) && Covers(w, s)
    ensures Foreign(own, x, w)
  {
    forall k <- x.Keys | k != own ensures k in w && x[k] <= w[k] {
      assert k in s.Keys;
    }
  }

  lemma ShapeUnderServerWrite(l: Link, t: Replica, d: string, w: Version)
    requires Shape(l) && ServerWrote(l.client.uid, l.server, t, d, w)
    ensures Shape(l.(server := t))
  {
    var e: Entry :| e.docId == d && t.log == l.server.log + [e];
    OnLogGrows(l.server.log, e, Known(l));
    OnLogGrows(l.server.log, e, l.session.newPoint);
    GoodChangesGrow(l.server.log, e, l.session.toReturn);
  }

  /** Two links that show the same of document `x`. */
  ghost predicate SameDoc(l: Link, n: Link, x: string) {
    && n.server.uid == l.server.uid && n.client.uid == l.client.uid
    && (x in n.server.docs <==> x in l.server.docs) && (x in l.server.docs ==> n.server.docs[x] == l.server.docs[x])
    && (x in n.client.docs <==> x in l.client.docs) && (x in l.client.docs ==> n.client.docs[x] == l.client.docs[x])
    && ConflictsOf(n.server, x) == ConflictsOf(l.server, x)
    && ConflictsOf(n.client, x) == ConflictsOf(l.client, x)
    && LastGen(n.server.log, x) == LastGen(l.server.log, x)
    && LastGen(n.client.log, x) == LastGen(l.client.log, x)
    && (x in n.skipped <==> x in l.skipped)
  }

  lemma SameDocSameView(l: Link, n: Link, x: string)
    requires SameDoc(l, n, x)
    ensures RevOf(n.server, x) == RevOf(l.server, x) && RevOf(n.client, x) == RevOf(l.client, x)
    ensures CaughtUp(n, x) == CaughtUp(l, x) && NotAhead(n, x) == NotAhead(l, x)
    ensures GoodReplica(l.server, x) ==> GoodReplica(n.server, x)
    ensures GoodReplica(l.client, x) ==> GoodReplica(n.client, x)
    ensures Counters(l, x) ==> Counters(n, x)
  {
    assert forall c: Clock :: Explained(n, x, c) == Explained(l, x, c);
  }

  lemma SameDocSameDownloads(l: Link, n: Link, x: string)
    requires SameDoc(l, n, x)
    ensures forall v :: GoodDownload(n, x, v) == GoodDownload(l, x, v)
  {
    hide Covers, Below, LastGen;
    assert Held(n.client, x) == Held(l.client, x);
  }

  /** What a session notes does not change what the two sides show. */
  lemma SessionDoesNotShow(l: Link, ss: Session, d: string)
    ensures var n := l.(session := ss);
      && CaughtUp(n, d) == CaughtUp(l, d) && NotAhead(n, d) == NotAhead(l, d)
      && (forall v :: GoodUpload(n, d, v) == GoodUpload(l, d, v))
      && (forall v :: GoodDownload(n, d, v) == GoodDownload(l, d, v))
  {
    hide Covers, Newer, Positive, Foreign, LastGen;
    var n := l.(session := ss);
    assert forall x: Clock :: Explained(n, d, x) == Explained(l, d, x);
  }

  lemma SameDocSameSending(l: Link, n: Link, x: string)
    requires SameDoc(l, n, x) && n.session == l.session
    requires Known(n).gen == Known(l).gen
    requires |l.server.log| <= |n.server.log|
    requires SendingDoc(l, x)
    ensures SendingDoc(n, x)
  {
    SameDocSameView(l, n, x);
    var ss := l.session;
    var k := IndexOf(ss.changes, x);
    if |ss.outcomes| <= k < |ss.sent| {
      assert GoodUpload(n, x, ss.sent[k]);
    }
    hide CaughtUp, NotAhead, GoodUpload, IndexOf;
  }

  lemma SameDocSameReceiving(l: Link, n: Link, x: string)
    requires SameDoc(l, n, x) && n.session == l.session
    requires n.client.log == l.client.log ||
      (|l.client.log| < |n.client.log| && l.session.startGen + l.session.numLogged <= |l.client.log|)
    requires ReceivingDoc(l, x)
    ensures ReceivingDoc(n, x)
  {
    SameDocSameView(l, n, x);
    var ss := l.session;
    var m := IndexOf(ss.toReturn, x);
    if ss.delivered <= m < |ss.returned| {
      assert GoodDownload(n, x, ss.returned[m]);
    }
    hide CaughtUp, NotAhead, GoodDownload, IndexOf;
  }

  /** The session's part of the invariant of `x` when only logs have grown, by other documents. */
  lemma SameDocSameSession(l: Link, n: Link, x: string)
    requires SameDoc(l, n, x) && n.session == l.session
    requires Known(n).gen == Known(l).gen
    requires |l.server.log| <= |n.server.log|
    requires n.client.log == l.client.log ||
      (|l.client.log| < |n.client.log| && (l.session.phase in {Receiving, Finished} ==>
        l.session.startGen + l.session.numLogged <= |l.client.log|))
    requires SessionDoc(l, x)
    ensures SessionDoc(n, x)
  {
    hide SendingDoc, ReceivingDoc;
    match l.session.phase
    case Idle =>
    case Sending => SameDocSameSending(l, n, x);
    case Receiving => SameDocSameReceiving(l, n, x);
    case Finished => SameDocSameView(l, n, x);
  }

  lemma WroteElsewhere(l: Link, t: Replica, d: string, w: Version, x: string)
    requires ServerWrote(l.client.uid, l.server, t, d, w) && x != d
    ensures SameDoc(l, l.(server := t), x)
    ensures t.uid == l.server.uid && KnownOf(t, l.client.uid) == KnownOf(l.server, l.client.uid)
    ensures |l.server.log| <= |t.log|
  {
    hide Covers, GoodVersion, GrowsElsewhere, LastGen;
    var e: Entry :| e.docId == d && t.log == l.server.log + [e];
    LastGenAppend(l.server.log, e, x);
  }

  lemma OtherDocUnderServerWrite(l: Link, t: Replica, d: string, w: Version, x: string)
    requires Shape(l) && ServerWrote(l.client.uid, l.server, t, d, w)
    requires DocInv(l, x) && x != d
    ensures DocInv(l.(server := t), x)
  {
    hide CaughtUp, NotAhead, SessionDoc, GoodReplica, Counters, ServerWrote, Shape, LastGen;
    var n := l.(server := t);
    WroteElsewhere(l, t, d, w, x);
    SameDocSameView(l, n, x);
    SameDocSameSession(l, n, x);
  }

  /** The client does not cover what was just written, so the new version is news to it. */
  lemma WrittenDocCounters(l: Link, t: Replica, d: string, w: Version)
    requires Shape(l) && ServerWrote(l.client.uid, l.server, t, d, w) && DocInv(l, d)
    ensures var n := l.(server := t);
      && GoodReplica(t, d)
      && Counters(n, d)
      && !Covers(RevOf(l.client, d), w.rev)
      && NotAhead(n, d)
      && Honest(n, d)
  {
    var e: Entry :| e.docId == d && t.log == l.server.log + [e];
    LastGenAppend(l.server.log, e, d);
    var own, s := l.client.uid, RevOf(l.server, d);
    if d in l.client.docs {
      assert l.client.docs[d] in Held(l.client, d);
      ForeignDoesNotCover(own, l.client.docs[d].rev, s, w.rev);
    }
    forall v <- Held(l.client, d) ensures Foreign(own, v.rev, w.rev) {
      ExplainedGrows(own, v.rev, s, w.rev);
    }
    if d in l.client.docs && l.client.docs[d].rev == w.rev {
      assert Covers(w.rev, w.rev);
    }
  }

  /** What the server writes for others is news to a client whose versions it already explained. */
  lemma NewsArrives(own: string, held: set<Version>, s: Clock, w: Clock)
    requires Covers(w, s) && GrowsElsewhere(own, s, w)
    requires forall v <- held :: Foreign(own, v.rev, s)
    ensures NewsFor(own, held, w)
  {
    var k :| k in w && k != own && (k in s ==> s[k] < w[k]);
    forall v <- held ensures Below(v.rev, k, w) {
      assert k in v.rev.Keys ==> k in s && v.rev[k] <= s[k];
    }
  }

  lemma CoveredIsForeign(own: string, x: Clock, s: Clock)
    requires Covers(s, x)
    ensures Foreign(own, x, s)
  {}

  lemma DownloadUnderServerWrite(l: Link, t: Replica, d: string, w: Version, v: Version)
    requires ServerWrote(l.client.uid, l.server, t, d, w) && Counters(l, d) && GoodDownload(l, d, v)
    ensures GoodDownload(l.(server := t), d, v)
  {
    hide Newer, Positive, Foreign, Covers;
    var own, s := l.client.uid, RevOf(l.server, d);
    CoversTransitive(w.rev, s, v.rev);
    CoveredIsForeign(own, v.rev, s);
    NewsArrives(own, Held(l.client, d) + {v}, s, w.rev);
  }

  lemma WrittenDocSession(l: Link, t: Replica, d: string, w: Version)
    requires Shape(l) && ServerWrote(l.client.uid, l.server, t, d, w) && DocInv(l, d)
    ensures SessionDoc(l.(server := t), d)
  {
    hide Newer, Positive, LastGen, Foreign, Covers;
    WrittenDocCounters(l, t, d, w);
    var e: Entry :| e.docId == d && t.log == l.server.log + [e];
    LastGenAppend(l.server.log, e, d);
    var n := l.(server := t);
    var ss, own, s := l.session, l.client.uid, RevOf(l.server, d);
    match ss.phase
    case Idle =>
    case Sending =>
      var k := IndexOf(ss.changes, d);
      if |ss.outcomes| <= k < |ss.sent| {
        ExplainedGrows(own, ss.sent[k].rev, s, w.rev);
      }
    case Receiving =>
      var m := IndexOf(ss.toReturn, d);
      if ss.delivered <= m < |ss.returned| {
        DownloadUnderServerWrite(l, t, d, w, ss.returned[m]);
      }
      hide GoodDownload, GoodReplica, Counters, CaughtUp, NotAhead;
    case Finished =>
  }

  lemma ServerWriteKeepsInv(l: Link, t: Replica, d: string, w: Version)
    requires LinkInv(l) && ServerWrote(l.client.uid, l.server, t, d, w)
    ensures LinkInv(l.(server := t))
  {
    ShapeUnderServerWrite(l, t, d, w);
    forall x: string ensures DocInv(l.(server := t), x) {
      assert DocInv(l, x);
      if x == d {
        WrittenDocCounters(l, t, d, w);
        WrittenDocSession(l, t, d, w);
      } else {
        OtherDocUnderServerWrite(l, t, d, w, x);
      }
    }
  }

  lemma ServerIdleKeepsInv(l: Link, t: Replica)
    requires LinkInv(l) && ServerIdle(l.client.uid, l.server, t)
    ensures LinkInv(l.(server := t))
  {
    hide Covers, Newer, Positive, Foreign, SessionDoc, GoodReplica, Counters;
    var n := l.(server := t);
    forall x: string ensures DocInv(n, x) {
      assert DocInv(l, x);
      SameDocSameView(l, n, x);
      SameDocSameSession(l, n, x);
    }
  }
}
