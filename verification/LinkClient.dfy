/** The link invariant survives what the client does locally, at any point of a session. */
module LinkClient {
  import opened ChangeLog
  import opened Documents
  import opened LinkInvariant
  import opened LinkRely
  import opened Links
  import opened Replicas
  import opened VectorClocks
  import opened Wrappers

  // ---------- where counters come from ----------

  /** Every counter of `x`, but for the client's own, is matched by one of the `held` versions. */
  ghost predicate Derived(own: string, x: Clock, held: set<Version>) {
    Positive(x) && forall k <- x.Keys :: k == own || exists w <- held :: k in w.rev && x[k] <= w.rev[k]
  }

  lemma HeldIsDerived(own: string, v: Version, held: set<Version>)
    requires v in held && Positive(v.rev)
    ensures Derived(own, v.rev, held)
  {}

  lemma JoinIsDerived(own: string, a: Clock, b: Clock, held: set<Version>)
    requires Derived(own, a, held) && Derived(own, b, held)
    ensures Derived(own, Join(a, b), held)
  {
    PositiveIsKept(a, b, own);
    var j := Join(a, b);
    forall k <- j.Keys | k != own ensures exists w <- held :: k in w.rev && j[k] <= w.rev[k] {
      if k in a && j[k] == a[k] {
        assert k in a.Keys;
      } else {
        assert k in b.Keys && j[k] == b[k];
      }
    }
  }

  lemma IncrementIsDerived(own: string, a: Clock, held: set<Version>)
    requires Derived(own, a, held)
    ensures Derived(own, Increment(a, own), held)
  {
    PositiveIsKept(a, a, own);
    var n := Increment(a, own);
    forall k <- n.Keys | k != own ensures exists w <- held :: k in w.rev && n[k] <= w.rev[k] {
      assert k in a.Keys;
    }
  }

  lemma DerivedIsForeign(own: string, x: Clock, held: set<Version>, s: Clock)
    requires Derived(own, x, held) && forall v <- held :: Foreign(own, v.rev, s)
    ensures Foreign(own, x, s)
  {
    forall k <- x.Keys | k != own ensures k in s && x[k] <= s[k] {
      var w :| w in held && k in w.rev && x[k] <= w.rev[k];
      assert k in w.rev.Keys;
    }
  }

  lemma DerivedIsBelow(own: string, x: Clock, held: set<Version>, k: string, s: Clock)
    requires Derived(own, x, held) && k != own && k in s && forall v <- held :: Below(v.rev, k, s)
    ensures Below(x, k, s)
  {
    if k in x {
      var w :| w in held && k in w.rev && x[k] <= w.rev[k];
      assert Below(w.rev, k, s);
    }
  }

  lemma NewsStaysNews(own: string, held: set<Version>, now: set<Version>, s: Clock)
    requires NewsFor(own, held, s)
    requires forall v <- now :: Derived(own, v.rev, held)
    ensures NewsFor(own, now, s)
  {
    var k :| k != own && k in s && forall v <- held :: Below(v.rev, k, s);
    forall v <- now ensures Below(v.rev, k, s) {
      DerivedIsBelow(own, v.rev, held, k, s);
    }
  }

  lemma DerivedFromMore(own: string, x: Clock, held: set<Version>, more: set<Version>)
    requires Derived(own, x, held) && held <= more
    ensures Derived(own, x, more)
  {
    forall k <- x.Keys | k != own ensures exists w <- more :: k in w.rev && x[k] <= w.rev[k] {
      var w :| w in held && k in w.rev && x[k] <= w.rev[k];
      assert w in more;
    }
  }

  lemma CountGrows(a: Clock, b: Clock, uid: string)
    requires Covers(a, b) && Positive(a)
    ensures Count(b, uid) <= Count(a, uid)
  {
    assert uid in b.Keys ==> uid in a && b[uid] <= a[uid];
  }

  // ---------- a write by the client ----------

  /** The client's replica changed in document `d` only, and what it holds derives from what it held. */
  ghost predicate Rewrote(c: Replica, t: Replica, d: string, from: set<Version>) {
    && t.uid == c.uid
    && t.known == c.known
    && t.docs - {d} == c.docs - {d}
    && t.conflicts - {d} == c.conflicts - {d}
    && (forall v <- Held(t, d) :: Derived(c.uid, v.rev, from))
  }

  /** The client wrote a new current version with a counter of its own. */
  ghost predicate ClientWrote(c: Replica, t: Replica, d: string) {
    && Rewrote(c, t, d, Held(c, d))
    && d in t.docs
    && (exists e: Entry :: e.docId == d && t.log == c.log + [e])
    && GoodVersion(t.docs[d])
    && Covers(t.docs[d].rev, RevOf(c, d))
    && Count(RevOf(c, d), c.uid) < Count(t.docs[d].rev, c.uid)
  }

  /** The client only changed the conflicts of a document it has. */
  ghost predicate ClientSetConflicts(c: Replica, t: Replica, d: string) {
    && Rewrote(c, t, d, Held(c, d))
    && d in c.docs
    && t.docs == c.docs && t.log == c.log
  }

  lemma ShapeUnderClientWrite(l: Link, t: Replica, d: string)
    requires Shape(l) && ClientWrote(l.client, t, d)
    ensures Shape(l.(client := t))
  {
    var e: Entry :| e.docId == d && t.log == l.client.log + [e];
    OnLogGrows(l.client.log, e, KnownByServer(l));
    if l.session.gapless.Some? {
      OnLogGrows(l.client.log, e, l.session.gapless.value);
    }
    GoodChangesGrow(l.client.log, e, l.session.changes);
  }

  lemma OtherDocUnderClientChange(l: Link, t: Replica, d: string, x: string)
    requires LinkInv(l) && x != d
    requires ClientWrote(l.client, t, d) || ClientSetConflicts(l.client, t, d)
    ensures DocInv(l.(client := t), x)
  {
    hide Covers, Newer, Positive, Foreign, SessionDoc, GoodReplica, Counters, Derived;
    var n := l.(client := t);
    if ClientWrote(l.client, t, d) {
      var e: Entry :| e.docId == d && t.log == l.client.log + [e];
      LastGenAppend(l.client.log, e, x);
    }
    SameElsewhere(l.client, t, d, x);
    assert DocInv(l, x);
    SameDocSameView(l, n, x);
    assert l.session.phase in {Receiving, Finished} ==>
        l.session.startGen + l.session.numLogged <= |l.client.log|;
    SameDocSameSession(l, n, x);
  }

  lemma HeldStaysExplained(l: Link, t: Replica, d: string)
    requires Counters(l, d) && Rewrote(l.client, t, d, Held(l.client, d))
    ensures forall v <- Held(t, d) :: Explained(l.(client := t), d, v.rev)
  {
    forall v <- Held(t, d) ensures Explained(l.(client := t), d, v.rev) {
      DerivedIsForeign(l.client.uid, v.rev, Held(l.client, d), RevOf(l.server, d));
    }
  }

  lemma DownloadStaysGood(l: Link, t: Replica, d: string, v: Version)
    requires GoodDownload(l, d, v) && Rewrote(l.client, t, d, Held(l.client, d))
    ensures GoodDownload(l.(client := t), d, v)
  {
    var held, now := Held(l.client, d) + {v}, Held(t, d) + {v};
    if v != l.server.docs[d] {
      forall w <- now ensures Derived(l.client.uid, w.rev, held) {
        if w == v {
          HeldIsDerived(l.client.uid, v, held);
        } else {
          DerivedFromMore(l.client.uid, w.rev, Held(l.client, d), held);
        }
      }
      NewsStaysNews(l.client.uid, held, now, l.server.docs[d].rev);
    }
  }

  lemma WrittenDocBasics(l: Link, t: Replica, d: string)
    requires Shape(l) && DocInv(l, d) && ClientWrote(l.client, t, d)
    ensures var n := l.(client := t);
      && GoodReplica(t, d)
      && Counters(n, d)
      && Honest(n, d)
      && (CaughtUp(l, d) ==> CaughtUp(n, d))
      && LastGen(t.log, d) == |l.client.log| + 1
  {
    var e: Entry :| e.docId == d && t.log == l.client.log + [e];
    LastGenAppend(l.client.log, e, d);
    HeldStaysExplained(l, t, d);
    if CaughtUp(l, d) {
      CoversTransitive(t.docs[d].rev, RevOf(l.client, d), RevOf(l.server, d));
    }
  }

  lemma WrittenDocSession(l: Link, t: Replica, d: string)
    requires Shape(l) && DocInv(l, d) && ClientWrote(l.client, t, d)
    ensures SessionDoc(l.(client := t), d)
  {
    WrittenDocBasics(l, t, d);
    var ss := l.session;
    match ss.phase
    case Idle =>
    case Sending =>
      var k := IndexOf(ss.changes, d);
      if |ss.outcomes| <= k < |ss.sent| {
        var x, own := ss.sent[k], l.client.uid;
        assert l.client.docs[d] in Held(l.client, d);
        CountGrows(l.client.docs[d].rev, x.rev, own);
        CoversTransitive(t.docs[d].rev, l.client.docs[d].rev, x.rev);
      }
    case Receiving =>
      var m := IndexOf(ss.toReturn, d);
      if ss.delivered <= m < |ss.returned| {
        DownloadStaysGood(l, t, d, ss.returned[m]);
      }
    case Finished =>
  }

  lemma ClientWriteKeepsInv(l: Link, t: Replica, d: string)
    requires LinkInv(l) && ClientWrote(l.client, t, d)
    ensures LinkInv(l.(client := t))
  {
    hide DocInv;
    ShapeUnderClientWrite(l, t, d);
    forall x: string ensures DocInv(l.(client := t), x) {
      if x == d {
        WrittenDoc(l, t, d);
      } else {
        OtherDocUnderClientChange(l, t, d, x);
      }
    }
  }

  lemma WrittenDoc(l: Link, t: Replica, d: string)
    requires LinkInv(l) && ClientWrote(l.client, t, d)
    ensures DocInv(l.(client := t), d)
  {
    assert DocInv(l, d);
    WrittenDocBasics(l, t, d);
    WrittenDocSession(l, t, d);
  }

  lemma ConflictsDocSession(l: Link, t: Replica, d: string)
    requires SessionDoc(l, d) && ClientSetConflicts(l.client, t, d)
    ensures SessionDoc(l.(client := t), d)
  {
    var n, ss := l.(client := t), l.session;
    assert CaughtUp(n, d) == CaughtUp(l, d) && NotAhead(n, d) == NotAhead(l, d);
    match ss.phase
    case Idle =>
    case Sending =>
      var k := IndexOf(ss.changes, d);
      if |ss.outcomes| <= k < |ss.sent| {
        assert GoodUpload(n, d, ss.sent[k]);
      }
      hide CaughtUp, NotAhead, GoodUpload;
    case Receiving =>
      var m := IndexOf(ss.toReturn, d);
      if ss.delivered <= m < |ss.returned| {
        DownloadStaysGood(l, t, d, ss.returned[m]);
      }
      hide CaughtUp, NotAhead, GoodDownload;
    case Finished =>
  }

  lemma ConflictsDoc(l: Link, t: Replica, d: string)
    requires LinkInv(l) && ClientSetConflicts(l.client, t, d)
    ensures DocInv(l.(client := t), d)
  {
    var n := l.(client := t);
    assert DocInv(l, d);
    ConflictsDocSession(l, t, d);
    HeldStaysExplained(l, t, d);
    hide Covers, Newer, Positive, Foreign, Derived, SessionDoc;
    assert CaughtUp(n, d) == CaughtUp(l, d) && NotAhead(n, d) == NotAhead(l, d);
  }

  lemma ClientConflictsKeepInv(l: Link, t: Replica, d: string)
    requires LinkInv(l) && ClientSetConflicts(l.client, t, d)
    ensures LinkInv(l.(client := t))
  {
    hide DocInv;
    forall x: string ensures DocInv(l.(client := t), x) {
      if x == d {
        ConflictsDoc(l, t, d);
      } else {
        OtherDocUnderClientChange(l, t, d, x);
      }
    }
  }

  // ---------- the local operations ----------

  /**
   * What a caller can name when resolving: revisions that, apart from the client's own counter, know
   * no more than what is held now. `Naming.SeenRevisionsCanBeNamed` proves that every revision the
   * client has ever held is one, lost or not; `UnseenRevisions.AnUnseenRevisionHidesAChange`
   * shows what goes wrong with others.
   */
  ghost predicate Nameable(r: Replica, a: LocalAction) {
    a.Resolve? ==> forall rev <- a.revs :: Derived(r.uid, rev, Held(r, a.docId))
  }

  lemma {:induction false} JoinAllIsDerived(own: string, rev: Clock, revs: seq<Clock>, held: set<Version>)
    requires Derived(own, rev, held) && forall x <- revs :: Derived(own, x, held)
    ensures Derived(own, JoinAll(rev, revs), held)
  {
    if revs != [] {
      JoinAllIsDerived(own, rev, revs[..|revs| - 1], held);
      JoinIsDerived(own, JoinAll(rev, revs[..|revs| - 1]), revs[|revs| - 1], held);
    }
  }

  lemma StoredIsDerived(r: Replica, d: string, v: Version)
    requires Derived(r.uid, v.rev, Held(r, d)) && forall w <- Held(r, d) :: Positive(w.rev)
    ensures Rewrote(r, Store(r, d, v), d, Held(r, d))
  {
    hide Derived, Positive;
    var t := Store(r, d, v);
    forall w <- Held(t, d) ensures Derived(r.uid, w.rev, Held(r, d)) {
      if w != v {
        assert w in ConflictsOf(t, d) && ConflictsOf(t, d) == ConflictsOf(r, d);
        HeldIsDerived(r.uid, w, Held(r, d));
      }
    }
  }

  lemma RevIsDerived(r: Replica, d: string)
    requires forall v <- Held(r, d) :: Positive(v.rev)
    ensures Derived(r.uid, RevOf(r, d), Held(r, d))
  {
    if d in r.docs {
      HeldIsDerived(r.uid, r.docs[d], Held(r, d));
    }
  }

  /** Storing an increment of the current revision is a client write. */
  lemma IncrementIsClientWrite(r: Replica, d: string, content: Content)
    requires GoodReplica(r, d) && forall v <- Held(r, d) :: Positive(v.rev)
    ensures ClientWrote(r, Store(r, d, Version(Increment(RevOf(r, d), r.uid), content)), d)
  {
    var v := Version(Increment(RevOf(r, d), r.uid), content);
    var t := Store(r, d, v);
    assert r.uid in v.rev;
    hide Derived, Rewrote, Held, Positive, Increment;
    RevIsDerived(r, d);
    IncrementIsNewer(RevOf(r, d), r.uid);
    IncrementIsDerived(r.uid, RevOf(r, d), Held(r, d));
    DerivedIsPositive(r.uid, v.rev, Held(r, d));
    StoredIsDerived(r, d, v);
    assert t.log == r.log + [Entry(d, r.ids(|r.log| + 1))];
    assert Entry(d, r.ids(|r.log| + 1)).docId == d;
  }

  lemma DerivedIsPositive(own: string, x: Clock, held: set<Version>)
    requires Derived(own, x, held)
    ensures Positive(x)
  {}

  lemma ResolutionIsDerived(r: Replica, d: string, revs: seq<Clock>)
    requires d in r.docs && forall v <- Held(r, d) :: Positive(v.rev)
    requires forall rev <- revs :: Derived(r.uid, rev, Held(r, d))
    ensures Derived(r.uid, MaximalRev(r.uid, r.docs[d].rev, revs), Held(r, d))
    ensures Count(r.docs[d].rev, r.uid) < Count(MaximalRev(r.uid, r.docs[d].rev, revs), r.uid)
  {
    var held, cur := Held(r, d), r.docs[d];
    HeldIsDerived(r.uid, cur, held);
    JoinAllIsDerived(r.uid, cur.rev, revs, held);
    IncrementIsDerived(r.uid, JoinAll(cur.rev, revs), held);
    JoinAllCovers(cur.rev, revs);
    CountGrows(JoinAll(cur.rev, revs), cur.rev, r.uid);
    IncrementIsNewer(JoinAll(cur.rev, revs), r.uid);
  }

  lemma ResolvedHolds(r: Replica, d: string, content: Content, revs: seq<Clock>)
    requires ResolveDoc(r, d, content, revs).Ok?
    ensures Held(ResolveDoc(r, d, content, revs).value, d) <=
      Held(r, d) + {Version(MaximalRev(r.uid, r.docs[d].rev, revs), content)}
  {
    var t := ResolveDoc(r, d, content, revs).value;
    forall v <- Held(t, d)
      ensures v in Held(r, d) + {Version(MaximalRev(r.uid, r.docs[d].rev, revs), content)}
    {
      if v in ConflictsOf(t, d) {
        assert v in ConflictsOf(r, d) || v == Version(MaximalRev(r.uid, r.docs[d].rev, revs), content);
      }
    }
  }

  lemma ResolveIsRewrite(r: Replica, d: string, content: Content, revs: seq<Clock>)
    requires GoodReplica(r, d) && forall v <- Held(r, d) :: Positive(v.rev)
    requires Nameable(r, Resolve(d, content, revs))
    requires ResolveDoc(r, d, content, revs).Ok?
    ensures Rewrote(r, ResolveDoc(r, d, content, revs).value, d, Held(r, d))
  {
    hide Positive, Covers;
    var t := ResolveDoc(r, d, content, revs).value;
    var held := Held(r, d);
    ResolutionIsDerived(r, d, revs);
    ResolvedHolds(r, d, content, revs);
    ResolveFrame(r, d, content, revs);
    hide ResolveDoc, Held, Derived, ConflictsOf, MaximalRev;
    forall w <- Held(t, d) ensures Derived(r.uid, w.rev, held) {
      if w in held {
        HeldIsDerived(r.uid, w, held);
      }
    }
  }

  lemma ResolveIsClientChange(r: Replica, d: string, content: Content, revs: seq<Clock>)
    requires GoodReplica(r, d) && forall v <- Held(r, d) :: Positive(v.rev)
    requires Nameable(r, Resolve(d, content, revs))
    requires ResolveDoc(r, d, content, revs).Ok?
    ensures var t := ResolveDoc(r, d, content, revs).value;
      ClientWrote(r, t, d) || ClientSetConflicts(r, t, d)
  {
    hide Rewrote, Held, Newer, Covers, Positive, JoinAll, Without;
    ResolveIsRewrite(r, d, content, revs);
    ResolutionIsDerived(r, d, revs);
    ResolutionIsNeverSuperseded(r.uid, r.docs[d].rev, revs);
    assert r.uid in MaximalRev(r.uid, r.docs[d].rev, revs);
  }

  lemma LocalActionIsChange(l: Link, a: LocalAction)
    requires LinkInv(l) && Nameable(l.client, a) && Perform(l.client, a).Ok?
    ensures var t := Perform(l.client, a).value;
      ClientWrote(l.client, t, a.docId) || ClientSetConflicts(l.client, t, a.docId)
  {
    var d, r, t := a.docId, l.client, Perform(l.client, a).value;
    assert DocInv(l, d);
    hide ClientWrote, ClientSetConflicts, LinkInv, SessionDoc, Honest, Increment;
    match a
    case Put(_, rev, content) =>
      IncrementIsClientWrite(r, d, content);
      assert t == Store(r, d, Version(Increment(RevOf(r, d), r.uid), content));
    case Delete(_, rev) =>
      IncrementIsClientWrite(r, d, None);
    case Resolve(_, content, revs) =>
      ResolveIsClientChange(r, d, content, revs);
  }

  /** Whatever the client does locally keeps the invariant. */
  lemma LocalActionKeepsInv(l: Link, a: LocalAction)
    requires LinkInv(l) && Nameable(l.client, a) && Perform(l.client, a).Ok?
    ensures LinkInv(l.(client := Perform(l.client, a).value))
  {
    hide LinkInv, ClientWrote, ClientSetConflicts, Perform, Nameable;
    var t := Perform(l.client, a).value;
    LocalActionIsChange(l, a);
    if ClientWrote(l.client, t, a.docId) {
      ClientWriteKeepsInv(l, t, a.docId);
    } else {
      ClientConflictsKeepInv(l, t, a.docId);
    }
  }
}
