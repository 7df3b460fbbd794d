/** The receiving half of a session, and its end, keep the link invariant. */
module LinkReceive {
  import opened ChangeLog
  import opened Documents
  import opened LinkClient
  import opened LinkInvariant
  import opened LinkRely
  import opened LinkSend
  import opened Links
  import opened Pruning
  import opened Replicas
  import opened VectorClocks

  // ---------- finding what to return ----------

  lemma AllButLast(cs: seq<Change>, init: seq<Change>, last: Change)
    requires Ascending(cs) && DistinctDocs(cs) && cs == init + [last]
    ensures Ascending(init) && DistinctDocs(init)
    ensures forall c <- init :: c.gen < last.gen && c.docId != last.docId
  {
    assert cs[|init|] == last;
    assert forall i :: 0 <= i < |init| ==> init[i] == cs[i] && cs[i].gen < last.gen && cs[i].docId != last.docId;
  }

  lemma OneMoreListed(rs: seq<Change>, last: Change)
    requires Ascending(rs) && DistinctDocs(rs)
    requires forall c <- rs :: c.gen < last.gen && c.docId != last.docId
    ensures Ascending(rs + [last]) && DistinctDocs(rs + [last])
  {
    assert forall i :: 0 <= i < |rs| ==> rs[i] in rs;
  }

  lemma {:induction false} ToReturnSpec(cs: seq<Change>, seenIds: map<string, nat>)
    requires Ascending(cs) && DistinctDocs(cs)
    ensures var rs := ToReturn(cs, seenIds);
      && Ascending(rs) && DistinctDocs(rs)
      && (forall c :: c in rs <==> c in cs && (c.docId !in seenIds || seenIds[c.docId] < c.gen))
  {
    hide Ascending, DistinctDocs;
    if cs == [] {
      NothingListed();
    } else {
      var init, last := cs[..|cs| - 1], cs[|cs| - 1];
      assert cs == init + [last];
      AllButLast(cs, init, last);
      ToReturnSpec(init, seenIds);
      OneMoreListed(ToReturn(init, seenIds), last);
    }
  }

  lemma NothingListed()
    ensures Ascending([]) && DistinctDocs([])
  {}

  lemma ListedHasIndex(cs: seq<Change>, c: Change)
    requires DistinctDocs(cs) && c in cs
    ensures IndexOf(cs, c.docId) < |cs| && cs[IndexOf(cs, c.docId)] == c
  {
    var k :| 0 <= k < |cs| && cs[k] == c;
    IndexIsUnique(cs, k);
  }

  /** A change not settled during this session, or made again since, is returned. */
  lemma UnsettledIsReturned(l: Link, d: string)
    requires LinkInv(l) && FindStep(l) != l
    requires LastGen(l.server.log, d) > Known(l).gen
    requires d !in l.session.seenIds || l.session.seenIds[d] < LastGen(l.server.log, d)
    ensures var rs := FindStep(l).session.toReturn;
      var m := IndexOf(rs, d);
      m < |rs| && rs[m].gen == LastGen(l.server.log, d)
  {
    var g := LastGen(l.server.log, d);
    var c := Change(d, g, TransIdAt(l.server.log, g));
    ChangesSpec(l.server.log, Known(l).gen);
    ToReturnSpec(Changes(l.server.log, Known(l).gen), l.session.seenIds);
    ListedHasIndex(FindStep(l).session.toReturn, c);
  }

  lemma ListedIsLogged(cs: seq<Change>, log: seq<Entry>, since: nat, upTo: nat, c: Change)
    requires ListsChanges(cs, log, since, upTo) && c in cs
    ensures LoggedChange(log, c) && since < c.gen <= |log|
  {}

  lemma FoundChanges(log: seq<Entry>, since: nat, seenIds: map<string, nat>)
    ensures var rs := ToReturn(Changes(log, since), seenIds);
      && GoodChanges(log, rs)
      && forall m :: 0 <= m < |rs| ==> since < rs[m].gen <= |log|
  {
    var cs := Changes(log, since);
    var rs := ToReturn(cs, seenIds);
    ChangesAreListed(log, since, |log|);
    ToReturnSpec(cs, seenIds);
    hide ToReturn, ListsChanges, ChangesUpTo, LoggedChange;
    forall c <- rs ensures LoggedChange(log, c) && since < c.gen <= |log| {
      ListedIsLogged(cs, log, since, |log|, c);
    }
    assert forall m :: 0 <= m < |rs| ==> rs[m] in rs;
  }

  lemma FoundShape(l: Link)
    requires LinkInv(l) && FindStep(l) != l
    ensures Shape(FindStep(l))
  {
    hide DocInv, GoodChanges;
    FoundChanges(l.server.log, Known(l).gen, l.session.seenIds);
  }

  lemma FoundEntry(l: Link, d: string)
    requires LinkInv(l) && FindStep(l) != l
    ensures var n := FindStep(l);
      Pending(n.session, d) ==>
        && n.session.toReturn[IndexOf(n.session.toReturn, d)].gen == LastGen(l.server.log, d)
        && LastGen(l.server.log, d) > Known(l).gen
  {
    var rs := FindStep(l).session.toReturn;
    ChangesSpec(l.server.log, Known(l).gen);
    ToReturnSpec(Changes(l.server.log, Known(l).gen), l.session.seenIds);
    hide LinkInv, ToReturn, LastGen, Changes;
    if IndexOf(rs, d) < |rs| {
      assert rs[IndexOf(rs, d)] in rs;
    }
  }

  /** What is not returned has arrived, or its last delivery was refused. */
  lemma NotFoundIsCaughtUp(l: Link, d: string)
    requires LinkInv(l) && FindStep(l) != l
    requires !Pending(FindStep(l).session, d)
    ensures CaughtUp(l, d) || d in l.skipped
  {
    assert DocInv(l, d);
    var ss, g := l.session, LastGen(l.server.log, d);
    hide CaughtUp, NotAhead, GoodReplica, Counters, GoodUpload, LastGen, Changes, ToReturn;
    if g > Known(l).gen && (d !in ss.seenIds || ss.seenIds[d] < g) {
      UnsettledIsReturned(l, d);
    }
  }

  lemma UnsettledIsFound(l: Link, d: string)
    requires LinkInv(l) && FindStep(l) != l
    requires var k := IndexOf(l.session.changes, d); k < |l.session.outcomes| && !Settles(l.session.outcomes[k])
    ensures Pending(FindStep(l).session, d) || d in l.skipped
  {
    assert DocInv(l, d);
    hide CaughtUp, NotAhead, GoodReplica, Counters, GoodUpload, LastGen, Changes, ToReturn;
    if LastGen(l.server.log, d) > Known(l).gen {
      UnsettledIsReturned(l, d);
    }
  }

  lemma FoundIsSent(l: Link, d: string)
    requires LinkInv(l) && FindStep(l) != l
    ensures Sent(FindStep(l), d)
  {
    assert DocInv(l, d);
    assert NotAhead(FindStep(l), d) == NotAhead(l, d);
    hide CaughtUp, NotAhead, GoodReplica, Counters, GoodUpload, Changes, ToReturn;
  }

  lemma FoundDoc(l: Link, d: string)
    requires LinkInv(l) && FindStep(l) != l
    ensures DocInv(FindStep(l), d)
  {
    hide LinkInv, NotAhead, LastGen, Changes, ToReturn, DocInv;
    var n, ss := FindStep(l), l.session;
    assert CaughtUp(n, d) == CaughtUp(l, d);
    FoundEntry(l, d);
    if !Pending(n.session, d) {
      NotFoundIsCaughtUp(l, d);
    }
    var k := IndexOf(ss.changes, d);
    if k < |ss.outcomes| && !Settles(ss.outcomes[k]) {
      UnsettledIsFound(l, d);
    }
    FoundIsSent(l, d);
    InvOfDoc(l, d);
    hide CaughtUp, Sent;
    assert ReceivingDoc(n, d);
    SessionChangeKeepsDoc(l, n.session, d);
  }

  lemma InvOfDoc(l: Link, d: string)
    requires LinkInv(l)
    ensures DocInv(l, d) && Shape(l)
  {}

  lemma FindKeepsInv(l: Link)
    requires LinkInv(l)
    ensures LinkInv(FindStep(l))
  {
    if FindStep(l) != l {
      FoundShape(l);
      forall d: string ensures DocInv(FindStep(l), d) {
        FoundDoc(l, d);
      }
    }
  }

  // ---------- reading at the server ----------

  lemma ReturnKeepsReceiving(l: Link, d: string)
    requires ReceivingDoc(l, d) && ReturnStep(l) != l && ReturnStep(l).session.phase == Receiving
    requires Shape(l) && (d in l.server.docs ==> GoodDownload(l, d, l.server.docs[d]))
    ensures ReceivingDoc(ReturnStep(l), d)
  {
    hide CaughtUp, NotAhead, GoodDownload, LastGen;
    SessionDoesNotShow(l, ReturnStep(l).session, d);
  }

  lemma CurrentIsGoodDownload(l: Link, d: string)
    requires d in l.server.docs && GoodReplica(l.server, d)
    ensures GoodDownload(l, d, l.server.docs[d])
  {}

  lemma ReturnKeepsDoc(l: Link, d: string)
    requires Shape(l) && DocInv(l, d) && ReturnStep(l) != l && ReturnStep(l).session.phase == Receiving
    ensures DocInv(ReturnStep(l), d)
  {
    hide ReceivingDoc, CaughtUp, NotAhead, GoodDownload, GoodReplica, Counters, Shape;
    if d in l.server.docs {
      CurrentIsGoodDownload(l, d);
    }
    ReturnKeepsReceiving(l, d);
    SessionChangeKeepsDoc(l, ReturnStep(l).session, d);
  }

  lemma ReturnKeepsInv(l: Link)
    requires LinkInv(l)
    ensures LinkInv(ReturnStep(l))
  {
    var n := ReturnStep(l);
    if n.session == NO_SESSION {
      AbortKeepsInv(l);
    } else if n != l {
      forall d: string ensures DocInv(n, d) {
        assert DocInv(l, d);
        ReturnKeepsDoc(l, d);
      }
    }
  }

  // ---------- inserting at the client ----------

  /** What the client did with a download. */
  ghost predicate Absorbed(l: Link, d: string, v: Version, t: Replica) {
    && t.uid == l.client.uid
    && t.known == l.client.known
    && (t == l.client ==> Covers(RevOf(l.client, d), v.rev))
    && (t != l.client ==>
         && Rewrote(l.client, t, d, Held(l.client, d) + {v})
         && (exists e: Entry :: e.docId == d && t.log == l.client.log + [e])
         && d in t.docs
         && GoodVersion(t.docs[d])
         && t.docs[d].content == v.content
         && Covers(t.docs[d].rev, v.rev)
         && (t.docs[d] == v || Count(v.rev, l.client.uid) < Count(t.docs[d].rev, l.client.uid))
         && !Covers(RevOf(l.client, d), v.rev))
  }

  lemma {:induction false} ScanIsDerived(own: string, doc: Version, cs: seq<Version>, held: set<Version>)
    requires Derived(own, doc.rev, held)
    requires forall c <- cs :: Derived(own, c.rev, held)
    ensures Derived(own, ScanAll(doc, cs).clock, held)
  {
    if cs != [] {
      ScanIsDerived(own, doc, cs[..|cs| - 1], held);
      JoinIsDerived(own, ScanAll(doc, cs[..|cs| - 1]).clock, cs[|cs| - 1].rev, held);
    }
  }

  lemma PrunedIsDerived(own: string, doc: Version, cs: seq<Version>, held: set<Version>)
    requires Derived(own, doc.rev, held) && GoodVersion(doc)
    requires forall c <- cs :: Derived(own, c.rev, held)
    ensures var p := Prune(own, doc, cs);
      && Derived(own, p.doc.rev, held)
      && GoodVersion(p.doc)
      && Covers(p.doc.rev, doc.rev)
      && p.doc.content == doc.content
      && (p.doc == doc || Count(doc.rev, own) < Count(p.doc.rev, own))
  {
    var s := ScanAll(doc, cs);
    ScanIsDerived(own, doc, cs, held);
    IncrementIsDerived(own, s.clock, held);
    ScanGrows(doc, cs);
    IncrementIsNewer(s.clock, own);
    CountGrows(s.clock, doc.rev, own);
    CoversTransitiveFrom(Increment(s.clock, own), s.clock);
    assert own in Increment(s.clock, own);
  }

  lemma HeldAreDerived(r: Replica, d: string, v: Version)
    requires forall w <- Held(r, d) :: Positive(w.rev)
    requires Positive(v.rev)
    ensures forall w <- Held(r, d) + {v} :: Derived(r.uid, w.rev, Held(r, d) + {v})
  {
    forall w <- Held(r, d) + {v} ensures Derived(r.uid, w.rev, Held(r, d) + {v}) {
      HeldIsDerived(r.uid, w, Held(r, d) + {v});
    }
  }

  /** The client's replica after it stored `w` as the current version and `ks` as its conflicts. */
  ghost predicate Stored(r: Replica, t: Replica, d: string, w: Version, ks: seq<Version>) {
    && t.uid == r.uid && t.known == r.known
    && t.docs == r.docs[d := w]
    && t.log == r.log + [Entry(d, r.ids(|r.log| + 1))]
    && t.conflicts - {d} == r.conflicts - {d}
    && ConflictsOf(t, d) == ks
  }

  lemma StoredIsRewrite(r: Replica, t: Replica, d: string, w: Version, ks: seq<Version>, from: set<Version>)
    requires Stored(r, t, d, w, ks)
    requires Derived(r.uid, w.rev, from) && forall k <- ks :: Derived(r.uid, k.rev, from)
    ensures Rewrote(r, t, d, from)
  {
    hide Derived;
    assert forall v <- Held(t, d) :: v == w || v in ks;
  }

  lemma StoredIsAbsorbed(l: Link, t: Replica, d: string, v: Version, w: Version, ks: seq<Version>)
    requires Stored(l.client, t, d, w, ks)
    requires !Covers(RevOf(l.client, d), v.rev)
    requires GoodVersion(w) && Covers(w.rev, v.rev) && w.content == v.content
    requires w == v || Count(v.rev, l.client.uid) < Count(w.rev, l.client.uid)
    requires Derived(l.client.uid, w.rev, Held(l.client, d) + {v})
    requires forall k <- ks :: k in Held(l.client, d) + {v}
    requires forall x <- Held(l.client, d) + {v} :: Derived(l.client.uid, x.rev, Held(l.client, d) + {v})
    ensures Absorbed(l, d, v, t)
  {
    hide Derived, Covers, Rewrote, GoodVersion, Held;
    StoredIsRewrite(l.client, t, d, w, ks, Held(l.client, d) + {v});
    assert |t.log| == |l.client.log| + 1;
    assert Entry(d, l.client.ids(|l.client.log| + 1)).docId == d;
  }

  /** Pruning at the client, with all that is known of what it holds. */
  lemma PruneHeldIsDerived(r: Replica, d: string, v: Version)
    requires GoodVersion(v) && forall w <- Held(r, d) :: Positive(w.rev)
    ensures var held, p := Held(r, d) + {v}, Prune(r.uid, v, ConflictsOf(r, d));
      && (forall x <- held :: Derived(r.uid, x.rev, held))
      && (forall k <- p.kept :: k in held)
      && Derived(r.uid, p.doc.rev, held)
      && GoodVersion(p.doc)
      && Covers(p.doc.rev, v.rev)
      && p.doc.content == v.content
      && (p.doc == v || Count(v.rev, r.uid) < Count(p.doc.rev, r.uid))
  {
    HeldAreDerived(r, d, v);
    assert forall c <- ConflictsOf(r, d) :: c in Held(r, d) + {v};
    hide Derived, Covers, Positive;
    PrunedIsDerived(r.uid, v, ConflictsOf(r, d), Held(r, d) + {v});
  }

  lemma NewerIsStored(r: Replica, d: string, v: Version)
    ensures var p, t := Prune(r.uid, v, ConflictsOf(r, d)), StoreNewer(r, d, v).replica;
      && Stored(r, t, d, p.doc, ConflictsOf(t, d))
      && forall k <- ConflictsOf(t, d) :: k in p.kept
  {
    var p := Prune(r.uid, v, ConflictsOf(r, d));
    if ConflictsOf(r, d) == [] {
      assert p.kept == [];
    }
  }

  lemma StoreNewerIsAbsorbed(l: Link, d: string, v: Version)
    requires GoodVersion(v) && forall w <- Held(l.client, d) :: Positive(w.rev)
    requires Newer(v.rev, RevOf(l.client, d))
    ensures Absorbed(l, d, v, StoreNewer(l.client, d, v).replica)
  {
    var r := l.client;
    NewerIsStrictOrder(v.rev, RevOf(r, d), v.rev);
    hide StoreNewer, Derived, Covers, GoodVersion, Positive, Held, Prune, Absorbed;
    var p, t := Prune(r.uid, v, ConflictsOf(r, d)), StoreNewer(r, d, v).replica;
    PruneHeldIsDerived(r, d, v);
    NewerIsStored(r, d, v);
    StoredIsAbsorbed(l, t, d, v, p.doc, ConflictsOf(t, d));
  }

  lemma ForcedIsStored(r: Replica, d: string, v: Version)
    requires d in r.docs && ForceConflict(r, d, v).Ok?
    ensures var p := Prune(r.uid, v, ConflictsOf(r, d));
      Stored(r, ForceConflict(r, d, v).value, d, p.doc, p.kept + [r.docs[d]])
  {
    hide Prune;
  }

  lemma ForceConflictIsAbsorbed(l: Link, d: string, v: Version)
    requires GoodVersion(v) && forall w <- Held(l.client, d) :: Positive(w.rev)
    requires d in l.client.docs && !Covers(RevOf(l.client, d), v.rev)
    requires ForceConflict(l.client, d, v).Ok?
    ensures Absorbed(l, d, v, ForceConflict(l.client, d, v).value)
  {
    hide ForceConflict, Derived, Covers, GoodVersion, Positive;
    var r, held := l.client, Held(l.client, d) + {v};
    var p := Prune(r.uid, v, ConflictsOf(r, d));
    var ks := p.kept + [r.docs[d]];
    PruneHeldIsDerived(r, d, v);
    ForcedIsStored(r, d, v);
    assert forall k <- ks :: k in held;
    hide Prune, Held, Absorbed;
    StoredIsAbsorbed(l, ForceConflict(r, d, v).value, d, v, p.doc, ks);
  }

  /** The revision given to two equal contents, seen from the one taken in. */
  lemma MergedRev(own: string, v: Version, cur: Version, held: set<Version>)
    requires GoodVersion(v) && Derived(own, v.rev, held) && Derived(own, cur.rev, held)
    ensures var w := Increment(Join(v.rev, cur.rev), own);
      && Derived(own, w, held)
      && Positive(w) && w != ZERO
      && Covers(w, v.rev)
      && Count(v.rev, own) < Count(w, own)
  {
    var j := Join(v.rev, cur.rev);
    JoinIsDerived(own, v.rev, cur.rev, held);
    IncrementIsDerived(own, j, held);
    JoinIsLeastUpperBound(v.rev, cur.rev, j);
    IncrementIsNewer(j, own);
    CountGrows(j, v.rev, own);
    CoversTransitive(Increment(j, own), j, v.rev);
    assert own in Increment(j, own);
  }

  lemma StoreIsStored(r: Replica, d: string, w: Version)
    ensures Stored(r, Store(r, d, w), d, w, ConflictsOf(r, d))
  {}

  lemma SameContentIsAbsorbed(l: Link, d: string, v: Version)
    requires GoodVersion(v) && forall w <- Held(l.client, d) :: Positive(w.rev)
    requires d in l.client.docs && !Covers(RevOf(l.client, d), v.rev)
    ensures var rev := Increment(Join(v.rev, RevOf(l.client, d)), l.client.uid);
      Absorbed(l, d, v, Store(l.client, d, Version(rev, v.content)))
  {
    var r, held := l.client, Held(l.client, d) + {v};
    var w := Version(Increment(Join(v.rev, RevOf(r, d)), r.uid), v.content);
    HeldAreDerived(r, d, v);
    assert r.docs[d] in held;
    assert forall c <- ConflictsOf(r, d) :: c in held;
    MergedRev(r.uid, v, r.docs[d], held);
    StoreIsStored(r, d, w);
    hide Derived, Covers, Held, Positive, Stored, Store, ConflictsOf, Increment, Join;
    StoredIsAbsorbed(l, Store(r, d, w), d, v, w, ConflictsOf(r, d));
  }

  lemma MergeIsAbsorbed(l: Link, d: string, v: Version)
    requires GoodVersion(v) && forall w <- Held(l.client, d) :: Positive(w.rev)
    requires Merge(l.client, d, v, true).Ok?
    ensures Absorbed(l, d, v, Merge(l.client, d, v, true).value.replica)
  {
    hide Rewrote, GoodVersion, Held, StoreNewer, ForceConflict;
    var r := l.client;
    var cur := RevOf(r, d);
    if Newer(v.rev, cur) {
      StoreNewerIsAbsorbed(l, d, v);
    } else if v.rev == cur || Newer(cur, v.rev) {
      assert Merge(r, d, v, true).value.replica == r;
    } else if r.docs[d].content == v.content {
      SameContentIsAbsorbed(l, d, v);
    } else {
      ForceConflictIsAbsorbed(l, d, v);
    }
  }

  ghost predicate AboutToDeliver(l: Link, d: string, v: Version) {
    var ss := l.session;
    && ss.phase == Receiving
    && ss.delivered < |ss.returned| && ss.delivered < |ss.toReturn|
    && ss.toReturn[ss.delivered].docId == d && ss.returned[ss.delivered] == v
  }

  ghost function AfterDelivery(l: Link, t: Replica, inserted: nat): Link
    requires l.session.delivered < |l.session.toReturn|
  {
    var ss := l.session;
    l.(client := SetKnown(t, l.server.uid, PointOf(ss.toReturn[ss.delivered])),
       session := ss.(
         delivered := ss.delivered + 1,
         numInserted := inserted,
         numLogged := ss.numLogged + (if |t.log| > |l.client.log| then 1 else 0)),
       skipped := l.skipped - {ss.toReturn[ss.delivered].docId})
  }

  /** What the client now holds cannot be newer than the server's, except with its content. */
  lemma AbsorbedIsNotAhead(l: Link, d: string, v: Version, t: Replica)
    requires DocInv(l, d) && GoodDownload(l, d, v) && Absorbed(l, d, v, t) && t != l.client
    ensures NotAhead(l.(client := t), d)
    ensures v != l.server.docs[d] ==> t.docs[d] == v || !Covers(t.docs[d].rev, l.server.docs[d].rev)
  {
    var s, own := l.server.docs[d], l.client.uid;
    if v != s {
      var k :| k != own && k in s.rev && forall w <- Held(l.client, d) + {v} :: Below(w.rev, k, s.rev);
      assert t.docs[d] in Held(t, d);
      DerivedIsBelow(own, t.docs[d].rev, Held(l.client, d) + {v}, k, s.rev);
    }
  }

  lemma AbsorbedCounters(l: Link, d: string, v: Version, t: Replica)
    requires DocInv(l, d) && GoodDownload(l, d, v) && Absorbed(l, d, v, t) && t != l.client
    ensures GoodReplica(t, d) && Counters(l.(client := t), d) && LastGen(t.log, d) == |l.client.log| + 1
  {
    hide Newer, Foreign, LastGen;
    var e: Entry :| e.docId == d && t.log == l.client.log + [e];
    LastGenAppend(l.client.log, e, d);
    var held, s := Held(l.client, d) + {v}, l.server.docs[d];
    CoveredIsForeign(l.client.uid, v.rev, s.rev);
    forall w <- Held(t, d) ensures Explained(l.(client := t), d, w.rev) {
      DerivedIsForeign(l.client.uid, w.rev, held, s.rev);
    }
    if t.docs[d].rev == s.rev {
      AbsorbedIsNotAhead(l, d, v, t);
    }
  }

  /** Once delivered, the client has caught up with whatever the server had when it was asked. */
  lemma AbsorbedIsCaughtUp(l: Link, d: string, v: Version, t: Replica)
    requires Shape(l) && DocInv(l, d) && GoodDownload(l, d, v) && Absorbed(l, d, v, t) && AboutToDeliver(l, d, v)
    requires LastGen(l.server.log, d) <= l.session.newPoint.gen
    ensures CaughtUp(l.(client := t), d)
  {
    IndexIsUnique(l.session.toReturn, l.session.delivered);
    var s := l.server.docs[d];
    if CaughtUp(l, d) {
      CoversTransitive(RevOf(l.client, d), s.rev, v.rev);
    } else {
      assert v == s;
    }
  }

  lemma DeliveredDocSync(l: Link, d: string, v: Version, t: Replica, inserted: nat)
    requires Shape(l) && DocInv(l, d) && GoodDownload(l, d, v) && Absorbed(l, d, v, t) && AboutToDeliver(l, d, v)
    ensures Honest(AfterDelivery(l, t, inserted), d) && ReceivingDoc(AfterDelivery(l, t, inserted), d)
  {
    hide Covers, Newer, Positive, Foreign, LastGen, Held, Rewrote;
    var n, mid := AfterDelivery(l, t, inserted), l.(client := t);
    IndexIsUnique(l.session.toReturn, l.session.delivered);
    if LastGen(l.server.log, d) <= l.session.newPoint.gen {
      AbsorbedIsCaughtUp(l, d, v, t);
    }
    if t != l.client {
      AbsorbedCounters(l, d, v, t);
      AbsorbedIsNotAhead(l, d, v, t);
    }
    assert Absorbed(l, d, v, t) ==> |t.log| <= |l.client.log| + 1;
    hide Absorbed, Counters, GoodReplica, GoodDownload;
    assert CaughtUp(n, d) == CaughtUp(mid, d) && NotAhead(n, d) == NotAhead(mid, d);
    hide CaughtUp, NotAhead;
  }

  lemma NoteKeepsCounters(l: Link, n: Link, source: string, p: SyncPoint, d: string)
    requires n.server == l.server && n.client == SetKnown(l.client, source, p)
    requires GoodReplica(l.client, d) && Counters(l, d)
    ensures GoodReplica(n.client, d) && Counters(n, d)
  {
    assert Held(n.client, d) == Held(l.client, d);
    assert forall x: Clock :: Explained(n, d, x) == Explained(l, d, x);
  }

  lemma DeliveredDoc(l: Link, d: string, v: Version, t: Replica, inserted: nat)
    requires Shape(l) && DocInv(l, d) && GoodDownload(l, d, v) && Absorbed(l, d, v, t) && AboutToDeliver(l, d, v)
    ensures DocInv(AfterDelivery(l, t, inserted), d)
  {
    hide Absorbed, Honest, ReceivingDoc, GoodReplica, Counters, GoodDownload;
    var n := AfterDelivery(l, t, inserted);
    if t != l.client {
      AbsorbedCounters(l, d, v, t);
    }
    AbsorbedKeepsUid(l, d, v, t);
    assert GoodReplica(l.(client := t).client, d) && Counters(l.(client := t), d);
    NoteKeepsCounters(l.(client := t), n, l.server.uid, Known(n), d);
    DeliveredDocSync(l, d, v, t, inserted);
    assert n.server == l.server && n.session.phase == Receiving;
  }

  lemma AbsorbedKeepsUid(l: Link, d: string, v: Version, t: Replica)
    requires Absorbed(l, d, v, t)
    ensures t.uid == l.client.uid && t.known == l.client.known
  {}

  lemma DeliveredOtherHonest(l: Link, n: Link, y: string)
    requires SameDoc(l, n, y) && Shape(l) && DocInv(l, y)
    requires l.session.phase == Receiving && l.session.delivered < |l.session.returned|
    requires l.session.toReturn[l.session.delivered].docId != y
    requires Known(n) == PointOf(l.session.toReturn[l.session.delivered])
    requires KnownByServer(n) == KnownByServer(l)
    ensures Honest(n, y)
  {
    SameDocSameView(l, n, y);
  }

  lemma DeliveredOtherSession(l: Link, d: string, v: Version, t: Replica, inserted: nat, y: string)
    requires Shape(l) && Absorbed(l, d, v, t) && AboutToDeliver(l, d, v) && y != d
    requires SameDoc(l, AfterDelivery(l, t, inserted), y)
    requires SessionDoc(l, y)
    ensures SessionDoc(AfterDelivery(l, t, inserted), y)
  {
    hide CaughtUp, NotAhead, GoodDownload, LastGen, Shape, SameDoc, GoodReplica, Counters;
    var n := AfterDelivery(l, t, inserted);
    SameDocSameView(l, n, y);
    SameDocSameDownloads(l, n, y);
    SameDocSameLogs(l, n, y);
    assert IndexOf(l.session.toReturn, y) != l.session.delivered;
    AbsorbedGrowsLog(l, d, v, t);
    hide Absorbed;
  }

  lemma SameDocSameLogs(l: Link, n: Link, y: string)
    requires SameDoc(l, n, y)
    ensures LastGen(n.server.log, y) == LastGen(l.server.log, y) && LastGen(n.client.log, y) == LastGen(l.client.log, y)
    ensures y in n.skipped <==> y in l.skipped
    ensures y in n.server.docs <==> y in l.server.docs
    ensures y in l.server.docs ==> n.server.docs[y] == l.server.docs[y]
  {}

  lemma AbsorbedGrowsLog(l: Link, d: string, v: Version, t: Replica)
    requires Absorbed(l, d, v, t)
    ensures t != l.client ==> |t.log| == |l.client.log| + 1
  {}

  lemma DeliveredOtherIsSame(l: Link, d: string, v: Version, t: Replica, inserted: nat, y: string)
    requires Absorbed(l, d, v, t) && AboutToDeliver(l, d, v) && y != d
    ensures SameDoc(l, AfterDelivery(l, t, inserted), y)
  {
    hide Covers, Positive, Derived, GoodVersion, Held, LastGen;
    if t != l.client {
      SameElsewhere(l.client, t, d, y);
      var e: Entry :| e.docId == d && t.log == l.client.log + [e];
      LastGenAppend(l.client.log, e, y);
    }
  }

  lemma DeliveredOtherDoc(l: Link, d: string, v: Version, t: Replica, inserted: nat, y: string)
    requires Shape(l) && DocInv(l, y) && Absorbed(l, d, v, t) && AboutToDeliver(l, d, v) && y != d
    ensures DocInv(AfterDelivery(l, t, inserted), y)
  {
    hide Covers, Newer, Positive, Foreign, GoodReplica, Counters, SessionDoc, Honest;
    var n := AfterDelivery(l, t, inserted);
    DeliveredOtherIsSame(l, d, v, t, inserted, y);
    hide Absorbed;
    SameDocSameView(l, n, y);
    DeliveredOtherHonest(l, n, y);
    DeliveredOtherSession(l, d, v, t, inserted, y);
  }

  lemma DeliveredShape(l: Link, d: string, v: Version, t: Replica, inserted: nat)
    requires Shape(l) && Absorbed(l, d, v, t) && AboutToDeliver(l, d, v)
    requires inserted <= l.session.numInserted + (if t != l.client then 1 else 0)
    ensures Shape(AfterDelivery(l, t, inserted))
  {
    hide GoodChanges;
    AbsorbedGrowsLog(l, d, v, t);
    PendingIsOnLog(l.server.log, l.session.toReturn, l.session.delivered);
    AbsorbedKeepsKnown(l, d, v, t);
    hide Absorbed;
  }

  lemma PendingIsOnLog(log: seq<Entry>, cs: seq<Change>, k: nat)
    requires GoodChanges(log, cs) && k < |cs|
    ensures OnLog(log, PointOf(cs[k]))
    ensures forall m :: k < m < |cs| ==> cs[k].gen < cs[m].gen
  {
    assert LoggedChange(log, cs[k]);
  }

  lemma AbsorbedKeepsKnown(l: Link, d: string, v: Version, t: Replica)
    requires Absorbed(l, d, v, t) && OnLog(l.client.log, KnownByServer(l))
    ensures t.uid == l.client.uid && OnLog(t.log, KnownByServer(l))
  {
    if t != l.client {
      var e: Entry :| e.docId == d && t.log == l.client.log + [e];
      OnLogGrows(l.client.log, e, KnownByServer(l));
    }
  }

  lemma DeliveryKeepsInv(l: Link, d: string, v: Version, t: Replica, inserted: nat)
    requires LinkInv(l) && Absorbed(l, d, v, t) && AboutToDeliver(l, d, v)
    requires inserted <= l.session.numInserted + (if t != l.client then 1 else 0)
    ensures LinkInv(AfterDelivery(l, t, inserted))
  {
    DeliveredShape(l, d, v, t, inserted);
    IndexIsUnique(l.session.toReturn, l.session.delivered);
    forall y: string ensures DocInv(AfterDelivery(l, t, inserted), y) {
      assert DocInv(l, y);
      if y == d {
        DeliveredDoc(l, d, v, t, inserted);
      } else {
        DeliveredOtherDoc(l, d, v, t, inserted, y);
      }
    }
  }

  lemma DownloadIsGood(l: Link)
    requires LinkInv(l) && l.session.phase == Receiving && l.session.delivered < |l.session.returned|
    ensures var c := l.session.toReturn[l.session.delivered];
      GoodDownload(l, c.docId, l.session.returned[l.session.delivered])
  {
    var c := l.session.toReturn[l.session.delivered];
    IndexIsUnique(l.session.toReturn, l.session.delivered);
    assert DocInv(l, c.docId);
  }

  /** An insertion that is counted has written to the log. */
  lemma CountedIsLogged(r: Replica, d: string, v: Version)
    requires Merge(r, d, v, true).Ok?
    ensures var t := Merge(r, d, v, true).value;
      && (Counts(t.outcome) ==> |t.replica.log| == |r.log| + 1)
      && (t.replica == r || |t.replica.log| == |r.log| + 1)
  {
    hide Prune, Newer, Join, Increment;
  }

  /** The session of a delivery that goes through. */
  lemma DeliverIsDelivery(l: Link, d: string, v: Version)
    requires AboutToDeliver(l, d, v)
    requires PutDocIfNewer(l.client, d, v, true, l.server.uid, PointOf(l.session.toReturn[l.session.delivered])).Ok?
    ensures Merge(l.client, d, v, true).Ok?
    ensures var n, t := DeliverStep(l), Merge(l.client, d, v, true).value.replica;
      && n == AfterDelivery(l, t, n.session.numInserted)
      && n.session.numInserted <= l.session.numInserted + (if t != l.client then 1 else 0)
  {
    var m := Merge(l.client, d, v, true);
    if m.Ok? {
      CountedIsLogged(l.client, d, v);
    }
    hide Merge;
  }

  // ---------- an insertion that is refused ----------

  ghost function AfterRefusal(l: Link, t: Replica, d: string): Link {
    l.(client := t, session := l.session.(delivered := l.session.delivered + 1), skipped := l.skipped + {d})
  }

  /** Only the duplicate row stops a delivery. */
  lemma DeliverIsRefusal(l: Link, d: string, v: Version)
    requires LinkInv(l) && AboutToDeliver(l, d, v)
    ensures PutDocIfNewer(l.client, d, v, true, l.server.uid, PointOf(l.session.toReturn[l.session.delivered])).Err?
      <==> Refuses(l.client, d, v)
    ensures Refuses(l.client, d, v) ==> DeliverStep(l) == AfterRefusal(l, Refuse(l.client, d, v), d)
  {
    DownloadIsGood(l);
    MergeFailsExactlyWhen(l.client, d, v, true);
    hide Merge, Refuses, Refuse, DocInv;
    assert Known(l).gen < l.session.toReturn[l.session.delivered].gen;
  }

  lemma RefusalSetsConflicts(r: Replica, d: string, v: Version)
    requires Refuses(r, d, v) && forall w <- Held(r, d) :: Positive(w.rev)
    ensures ClientSetConflicts(r, Refuse(r, d, v), d)
  {
    hide Positive, Prune, Covers, WithConflicts;
    var t := Refuse(r, d, v);
    assert ConflictsOf(t, d) == Prune(r.uid, v, ConflictsOf(r, d)).kept;
    KeptAreConflicts(r.uid, v, ConflictsOf(r, d));
    hide Refuse, Derived;
    forall w <- Held(t, d) ensures Derived(r.uid, w.rev, Held(r, d)) {
      assert w in Held(r, d);
      HeldIsDerived(r.uid, w, Held(r, d));
    }
  }

  lemma KeptAreConflicts(uid: string, v: Version, cs: seq<Version>)
    ensures forall c <- Prune(uid, v, cs).kept :: c in cs
  {}

  lemma SkippingDoesNotShow(l: Link, n: Link, y: string)
    requires n.server == l.server && n.client == l.client
    ensures CaughtUp(n, y) == CaughtUp(l, y) && NotAhead(n, y) == NotAhead(l, y)
    ensures forall w :: GoodDownload(n, y, w) == GoodDownload(l, y, w)
    ensures forall x: Clock :: Explained(n, y, x) == Explained(l, y, x)
  {
    hide Covers, Newer, Positive, Foreign;
  }

  lemma SkippedDocStays(l: Link, d: string, y: string)
    requires Shape(l) && DocInv(l, y) && l.session.phase == Receiving && l.session.delivered < |l.session.toReturn|
    requires d == l.session.toReturn[l.session.delivered].docId
    ensures DocInv(AfterRefusal(l, l.client, d), y)
  {
    hide CaughtUp, NotAhead, GoodDownload, Explained, LastGen, Held, GoodReplica;
    var n, ss := AfterRefusal(l, l.client, d), l.session;
    IndexIsUnique(ss.toReturn, ss.delivered);
    SkippingDoesNotShow(l, n, y);
    if y == d {
      assert !Pending(n.session, y);
    } else {
      assert Pending(n.session, y) == Pending(ss, y);
    }
  }

  lemma SkippingKeepsInv(l: Link, d: string)
    requires LinkInv(l) && l.session.phase == Receiving
    requires l.session.delivered < |l.session.returned| && l.session.delivered < |l.session.toReturn|
    requires d == l.session.toReturn[l.session.delivered].docId
    ensures LinkInv(AfterRefusal(l, l.client, d))
  {
    hide DocInv;
    var n := AfterRefusal(l, l.client, d);
    assert Shape(n);
    forall y: string ensures DocInv(n, y) {
      InvOfDoc(l, y);
      SkippedDocStays(l, d, y);
    }
  }

  lemma HeldIsPositive(l: Link, d: string)
    requires LinkInv(l)
    ensures forall w <- Held(l.client, d) :: Positive(w.rev)
  {
    assert DocInv(l, d);
  }

  lemma RefusalKeepsInv(l: Link, d: string, v: Version)
    requires LinkInv(l) && AboutToDeliver(l, d, v) && Refuses(l.client, d, v)
    ensures LinkInv(AfterRefusal(l, Refuse(l.client, d, v), d))
  {
    hide LinkInv, Refuses, Refuse, DocInv, ClientSetConflicts, Positive, Held;
    HeldIsPositive(l, d);
    var t := Refuse(l.client, d, v);
    RefusalSetsConflicts(l.client, d, v);
    ClientConflictsKeepInv(l, t, d);
    SkippingKeepsInv(l.(client := t), d);
  }

  lemma DeliverKeepsInv(l: Link)
    requires LinkInv(l)
    ensures LinkInv(DeliverStep(l))
  {
    var i := l.session.delivered;
    if l.session.phase == Receiving && i < |l.session.returned| && i < |l.session.toReturn| {
      var d, v := l.session.toReturn[i].docId, l.session.returned[i];
      DownloadIsGood(l);
      DeliverIsRefusal(l, d, v);
      HeldIsPositive(l, d);
      hide LinkInv, DeliverStep, PutDocIfNewer, Refuses, Refuse, GoodDownload, Merge;
      if Refuses(l.client, d, v) {
        RefusalKeepsInv(l, d, v);
      } else {
        DeliverIsDelivery(l, d, v);
        DownloadIsVersion(l, d, v);
        MergeIsAbsorbed(l, d, v);
        DeliveryKeepsInv(l, d, v, Merge(l.client, d, v, true).value.replica, DeliverStep(l).session.numInserted);
      }
    }
  }

  lemma DownloadIsVersion(l: Link, d: string, v: Version)
    requires GoodDownload(l, d, v)
    ensures GoodVersion(v)
  {}

  // ---------- the end of a session ----------

  lemma CompleteKeepsInv(l: Link)
    requires LinkInv(l)
    ensures LinkInv(CompleteStep(l))
  {
    var n, ss := CompleteStep(l), l.session;
    if n != l {
      forall d: string ensures DocInv(n, d) {
        assert DocInv(l, d);
        assert CaughtUp(n, d) == CaughtUp(l, d) && NotAhead(n, d) == NotAhead(l, d);
        assert Held(n.client, d) == Held(l.client, d);
        assert Counters(n, d);
      }
    }
  }

  lemma CheckGaplessKeepsInv(l: Link)
    requires LinkInv(l)
    ensures LinkInv(CheckGaplessStep(l))
  {
    var n, ss := CheckGaplessStep(l), l.session;
    if n.session == NO_SESSION {
      AbortKeepsInv(l);
    } else if n != l {
      forall d: string ensures DocInv(n, d) {
        assert DocInv(l, d);
        assert NotAhead(n, d) == NotAhead(l, d);
        SessionChangeKeepsDoc(l, n.session, d);
      }
    }
  }

  lemma RecordInfoKeepsInv(l: Link)
    requires LinkInv(l)
    ensures LinkInv(RecordInfoStep(l))
  {
    var n := RecordInfoStep(l);
    if n != l {
      forall d: string ensures DocInv(n, d) {
        assert DocInv(l, d);
        assert CaughtUp(n, d) == CaughtUp(l, d) && NotAhead(n, d) == NotAhead(l, d);
      }
    }
  }

  /** Every step of a session keeps the invariant. */
  lemma AdvanceKeepsInv(l: Link, step: SyncStep)
    requires LinkInv(l)
    ensures LinkInv(Advance(l, step))
  {
    hide LinkInv;
    match step
    case Start => StartKeepsInv(l);
    case Send => SendKeepsInv(l);
    case Insert => InsertKeepsInv(l);
    case Record => RecordKeepsInv(l);
    case Find => FindKeepsInv(l);
    case Return => ReturnKeepsInv(l);
    case Deliver => DeliverKeepsInv(l);
    case Complete => CompleteKeepsInv(l);
    case CheckGapless => CheckGaplessKeepsInv(l);
    case RecordInfo => RecordInfoKeepsInv(l);
    case Abort => AbortKeepsInv(l);
  }
}
