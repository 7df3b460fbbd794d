/** What holds between one client and the server after every step, whoever took it. */
module LinkInvariant {
  import opened ChangeLog
  import opened Documents
  import opened Links
  import opened Replicas
  import opened VectorClocks
  import opened Wrappers

  // ---------- counters ----------

  /** Apart from its own counter, `x` knows no more than `s` does. */
  predicate Foreign(own: string, x: Clock, s: Clock) {
    forall k <- x.Keys :: k == own || (k in s && x[k] <= s[k])
  }

  /** `w` raises some counter other than `own` above `s`. */
  ghost predicate GrowsElsewhere(own: string, s: Clock, w: Clock) {
    exists k <- w.Keys :: k != own && (k in s ==> s[k] < w[k])
  }

  lemma ForeignDoesNotCover(own: string, x: Clock, s: Clock, w: Clock)
    requires Foreign(own, x, s) && GrowsElsewhere(own, s, w)
    ensures !Covers(x, w)
  {
    var k :| k in w && k != own && (k in s ==> s[k] < w[k]);
    assert k in x.Keys ==> k in s && x[k] < w[k];
  }

  // ---------- what one side knows of the other ----------

  /** The client's version of the document is the server's or a newer one. */
  predicate CaughtUp(l: Link, d: string) {
    Covers(RevOf(l.client, d), RevOf(l.server, d))
  }

  /** The client has nothing the server needs: not newer, or newer in name only. */
  predicate NotAhead(l: Link, d: string) {
    || !Newer(RevOf(l.client, d), RevOf(l.server, d))
    || (d in l.client.docs && d in l.server.docs && l.client.docs[d].content == l.server.docs[d].content)
  }

  predicate GoodVersion(v: Version) {
    Positive(v.rev) && v.rev != ZERO
  }

  ghost predicate SameRevSameContent(a: Version, b: Version) {
    a.rev == b.rev ==> a.content == b.content
  }

  // ---------- the invariant of one document ----------

  ghost predicate GoodReplica(r: Replica, d: string) {
    && (d in r.docs <==> LastGen(r.log, d) > 0)
    && (d in r.docs ==> GoodVersion(r.docs[d]))
    && (d !in r.docs ==> ConflictsOf(r, d) == [])
  }

  /** Versions the client may hold: their foreign counters are known to the server. */
  ghost predicate Explained(l: Link, d: string, x: Clock) {
    Positive(x) && Foreign(l.client.uid, x, RevOf(l.server, d))
  }

  ghost predicate Counters(l: Link, d: string) {
    && (forall v <- Held(l.client, d) :: Explained(l, d, v.rev))
    && Count(RevOf(l.server, d), l.client.uid) <= Count(RevOf(l.client, d), l.client.uid)
    && (d in l.client.docs && d in l.server.docs ==> SameRevSameContent(l.client.docs[d], l.server.docs[d]))
  }

  /** The two sync logs are honest about this document, unless its last delivery was refused. */
  ghost predicate Honest(l: Link, d: string) {
    && (LastGen(l.server.log, d) <= Known(l).gen ==> CaughtUp(l, d) || d in l.skipped)
    && (LastGen(l.client.log, d) <= KnownByServer(l).gen ==> NotAhead(l, d))
  }

  /** A version on its way to the server. */
  ghost predicate GoodUpload(l: Link, d: string, x: Version) {
    && d in l.client.docs
    && GoodVersion(x)
    && Explained(l, d, x.rev)
    && Covers(l.client.docs[d].rev, x.rev)
    && SameRevSameContent(x, l.client.docs[d])
    && (LastGen(l.server.log, d) <= Known(l).gen ==> Covers(x.rev, RevOf(l.server, d)) || d in l.skipped)
  }

  ghost predicate SendingDoc(l: Link, d: string) {
    var ss := l.session;
    var k := IndexOf(ss.changes, d);
    && (LastGen(l.client.log, d) <= ss.startGen ==>
         || NotAhead(l, d)
         || (&& |ss.outcomes| <= k < |ss.changes|
             && ss.changes[k].gen == LastGen(l.client.log, d)))
    && (|ss.outcomes| <= k < |ss.sent| ==>
         && GoodUpload(l, d, ss.sent[k])
         && (LastGen(l.client.log, d) <= ss.startGen ==> ss.sent[k] == l.client.docs[d]))
    && (d in ss.seenIds ==>
         && k < |ss.outcomes|
         && ss.seenIds[d] <= |l.server.log|
         && (LastGen(l.server.log, d) <= ss.seenIds[d] ==> CaughtUp(l, d)))
    && (k < |ss.outcomes| ==>
         if Settles(ss.outcomes[k]) then d in ss.seenIds
         else d !in ss.seenIds && (LastGen(l.server.log, d) > Known(l).gen || d in l.skipped))
  }

  predicate Below(x: Clock, k: string, s: Clock) {
    k in s && (k in x ==> x[k] < s[k])
  }

  /** The server has a counter, not the client's own, that nothing held at the client has reached. */
  ghost predicate NewsFor(own: string, held: set<Version>, s: Clock) {
    exists k :: k != own && k in s && forall v <- held :: Below(v.rev, k, s)
  }

  /** A version on its way to the client: still the server's, or the server has news since. */
  ghost predicate GoodDownload(l: Link, d: string, v: Version) {
    && d in l.server.docs
    && GoodVersion(v)
    && Covers(l.server.docs[d].rev, v.rev)
    && Count(v.rev, l.client.uid) == Count(l.server.docs[d].rev, l.client.uid)
    && (v == l.server.docs[d] || NewsFor(l.client.uid, Held(l.client, d) + {v}, l.server.docs[d].rev))
  }

  /** The document is to be returned and has not been handed on yet. */
  predicate Pending(ss: Session, d: string) {
    ss.delivered <= IndexOf(ss.toReturn, d) < |ss.toReturn|
  }

  /** What the session owes once the client has sent everything. */
  ghost predicate Sent(l: Link, d: string) {
    && (LastGen(l.client.log, d) <= l.session.startGen ==> NotAhead(l, d))
    && (|l.client.log| == l.session.startGen + l.session.numLogged ==> NotAhead(l, d))
  }

  ghost predicate ReceivingDoc(l: Link, d: string) {
    var ss := l.session;
    var k, m := IndexOf(ss.changes, d), IndexOf(ss.toReturn, d);
    && (LastGen(l.server.log, d) <= ss.newPoint.gen ==>
         || CaughtUp(l, d)
         || (d in l.skipped && !Pending(ss, d))
         || (&& Pending(ss, d)
             && ss.toReturn[m].gen == LastGen(l.server.log, d)
             && (m < |ss.returned| ==> d in l.server.docs && ss.returned[m] == l.server.docs[d])))
    && (ss.delivered <= m < |ss.returned| ==> GoodDownload(l, d, ss.returned[m]))
    && (k < |ss.outcomes| && !Settles(ss.outcomes[k]) ==> m < |ss.toReturn| || d in l.skipped)
    && Sent(l, d)
  }

  ghost predicate FinishedDoc(l: Link, d: string) {
    && Sent(l, d)
    && (l.session.gapless.Some? && LastGen(l.client.log, d) <= l.session.gapless.value.gen ==> NotAhead(l, d))
  }

  ghost predicate SessionDoc(l: Link, d: string) {
    match l.session.phase
    case Idle => true
    case Sending => SendingDoc(l, d)
    case Receiving => ReceivingDoc(l, d)
    case Finished => FinishedDoc(l, d)
  }

  ghost predicate DocInv(l: Link, d: string) {
    && GoodReplica(l.server, d)
    && GoodReplica(l.client, d)
    && Counters(l, d)
    && Honest(l, d)
    && SessionDoc(l, d)
  }

  // ---------- the invariant of the session as a whole ----------

  ghost predicate LoggedChange(log: seq<Entry>, c: Change) {
    0 < c.gen <= |log| && log[c.gen - 1] == Entry(c.docId, c.transId)
  }

  ghost predicate GoodChanges(log: seq<Entry>, cs: seq<Change>) {
    && Ascending(cs)
    && DistinctDocs(cs)
    && forall c <- cs :: LoggedChange(log, c)
  }

  ghost predicate SendingShape(l: Link) {
    var ss := l.session;
    && GoodChanges(l.client.log, ss.changes)
    && |ss.outcomes| <= |ss.sent| <= |ss.changes|
    && KnownByServer(l).gen <= ss.startGen <= |l.client.log|
    && (forall c <- ss.changes :: c.gen <= ss.startGen)
    && (forall k :: |ss.outcomes| <= k < |ss.changes| ==> KnownByServer(l).gen < ss.changes[k].gen)
    && (ss.unrecorded.Some? ==>
         && |ss.outcomes| > 0
         && ss.unrecorded.value == PointOf(ss.changes[|ss.outcomes| - 1]))
    && ss.returned == [] && ss.delivered == ss.numInserted == ss.numLogged == 0 && ss.gapless == None
  }

  ghost predicate ReceivingShape(l: Link) {
    var ss := l.session;
    && GoodChanges(l.server.log, ss.toReturn)
    && ss.delivered <= |ss.returned| <= |ss.toReturn|
    && Known(l).gen <= ss.newPoint.gen
    && OnLog(l.server.log, ss.newPoint)
    && (forall m :: ss.delivered <= m < |ss.toReturn| ==> Known(l).gen < ss.toReturn[m].gen <= ss.newPoint.gen)
    && ss.startGen + ss.numLogged <= |l.client.log|
    && ss.numInserted <= ss.numLogged
    && ss.gapless == None
  }

  ghost predicate FinishedShape(l: Link) {
    var ss := l.session;
    && ss.startGen + ss.numLogged <= |l.client.log|
    && ss.numInserted <= ss.numLogged
    && (ss.gapless.Some? ==> OnLog(l.client.log, ss.gapless.value))
  }

  ghost predicate Shape(l: Link) {
    && l.server.uid != l.client.uid
    && l.server.conflicts == map[]
    && OnLog(l.server.log, Known(l))
    && OnLog(l.client.log, KnownByServer(l))
    && match l.session.phase
       case Idle => true
       case Sending => SendingShape(l)
       case Receiving => ReceivingShape(l)
       case Finished => FinishedShape(l)
  }

  ghost predicate LinkInv(l: Link) {
    Shape(l) && forall d: string :: DocInv(l, d)
  }
}
