/**
 * Runs in which every resolution checks one thing before it is made: that the revision it computes is
 * not the one of a conflict. In such runs no delivery is refused, nothing is lost, and every guarantee
 * holds without exception.
 */
module CarefulRuns {
  import opened ChangeLog
  import opened Documents
  import opened Guarantees
  import opened LinkClient
  import opened LinkInvariant
  import opened LinkReceive
  import opened LinkRefusal
  import opened Links
  import opened Preservation
  import opened Pruning
  import opened Replicas
  import opened Star
  import opened VectorClocks

  /** A resolution whose revision is not that of a conflict. Every other step is careful. */
  ghost predicate Careful(st: Star, step: Step) {
    step.Local? && step.uid in st.clients && step.action.Resolve? ==>
      KeepsApart(st.clients[step.uid], step.action.docId, step.action.revs)
  }

  ghost predicate CarefulRun(start: Star, steps: seq<Step>)
    requires WellFormed(start)
  {
    forall k :: 0 <= k < |steps| ==> Careful(Run(start, steps[..k]), steps[k])
  }

  /** The revisions of every document are all different, and no delivery was refused. */
  ghost predicate Apart(l: Link) {
    l.skipped == {} && forall d :: DistinctHeld(l.client, d)
  }

  ghost predicate AllApart(st: Star) {
    WellFormed(st) && forall i <- st.clients.Keys :: Apart(LinkOf(st, i))
  }

  // ---------- local operations ----------

  lemma NoConflictsIsApart(r: Replica, d: string)
    requires ConflictsOf(r, d) == []
    ensures DistinctHeld(r, d)
  {}

  lemma ApartElsewhere(r: Replica, s: Replica, d: string, x: string)
    requires SameButFor(r, s, d) && x != d && DistinctHeld(r, x)
    ensures DistinctHeld(s, x)
  {
    SameElsewhere(r, s, d, x);
  }

  lemma WriteNeedsNoConflicts(r: Replica, a: LocalAction)
    requires !a.Resolve? && Perform(r, a).Ok? && GoodReplica(r, a.docId)
    ensures ConflictsOf(Perform(r, a).value, a.docId) == []
    ensures SameButFor(r, Perform(r, a).value, a.docId)
  {
    hide Increment, LastGen;
    var t := Perform(r, a).value;
    assert t.docs - {a.docId} == r.docs - {a.docId};
  }

  lemma LocalActionKeepsApart(r: Replica, a: LocalAction, d: string)
    requires GoodReplica(r, a.docId) && Perform(r, a).Ok? && DistinctHeld(r, d) && DistinctHeld(r, a.docId)
    requires a.Resolve? ==> KeepsApart(r, a.docId, a.revs)
    ensures DistinctHeld(Perform(r, a).value, d)
  {
    hide DistinctHeld, KeepsApart, GoodReplica;
    var t := Perform(r, a).value;
    match a
    case Resolve(x, content, revs) =>
      assert t == ResolveDoc(r, x, content, revs).value;
      hide ResolveDoc;
      ResolveFrame(r, x, content, revs);
      if d == x {
        ResolutionKeepsRevisionsApartExactlyWhen(r, x, content, revs);
      } else {
        ApartElsewhere(r, t, x, d);
      }
    case _ =>
      hide Perform;
      WriteNeedsNoConflicts(r, a);
      if d == a.docId {
        NoConflictsIsApart(t, d);
      } else {
        ApartElsewhere(r, t, a.docId, d);
      }
  }

  // ---------- deliveries ----------

  /** Revisions that are all different leave no reason to refuse. */
  lemma ApartIsNotRefused(r: Replica, d: string, v: Version)
    requires DistinctHeld(r, d)
    ensures !Refuses(r, d, v)
  {
    KeptAreConflicts(r.uid, v, ConflictsOf(r, d));
    hide Prune;
  }

  lemma StoredIsApart(r: Replica, t: Replica, d: string, w: Version, ks: seq<Version>, v: Version)
    requires Stored(r, t, d, w, ks)
    requires Covers(w.rev, v.rev) && forall k <- ks :: !Covers(k.rev, v.rev)
    requires DistinctRevs(ks)
    ensures DistinctHeld(t, d)
  {}

  lemma KeptIsApart(r: Replica, d: string, v: Version)
    requires DistinctHeld(r, d)
    ensures var kept := Prune(r.uid, v, ConflictsOf(r, d)).kept;
      && DistinctRevs(kept)
      && Revs(kept) <= Revs(ConflictsOf(r, d))
      && (forall k <- kept :: k in Held(r, d))
      && Covers(Prune(r.uid, v, ConflictsOf(r, d)).doc.rev, v.rev)
  {
    var cs := ConflictsOf(r, d);
    WithoutIsDistinct(cs, ScanAll(v, cs).toPrune);
    KeptAreConflicts(r.uid, v, cs);
    PruneIsSafe(r.uid, v, cs);
    CoversItself(v.rev);
    hide Covers, ScanAll, DistinctRevs;
  }

  lemma StoreNewerKeepsApart(r: Replica, d: string, v: Version)
    requires DistinctHeld(r, d) && forall h <- Held(r, d) :: !Covers(h.rev, v.rev)
    ensures DistinctHeld(StoreNewer(r, d, v).replica, d)
  {
    hide Covers, Prune, DistinctRevs, Held, Revs;
    var p, t := Prune(r.uid, v, ConflictsOf(r, d)), StoreNewer(r, d, v).replica;
    KeptIsApart(r, d, v);
    NewerIsStored(r, d, v);
    assert ConflictsOf(t, d) == p.kept || ConflictsOf(t, d) == ConflictsOf(r, d) == [];
    NothingIsDistinct();
    hide StoreNewer;
    StoredIsApart(r, t, d, p.doc, ConflictsOf(t, d), v);
  }

  lemma NothingIsDistinct()
    ensures DistinctRevs([])
  {}

  lemma ForceConflictKeepsApart(r: Replica, d: string, v: Version)
    requires DistinctHeld(r, d) && d in r.docs && ForceConflict(r, d, v).Ok?
    requires forall h <- Held(r, d) :: !Covers(h.rev, v.rev)
    ensures DistinctHeld(ForceConflict(r, d, v).value, d)
  {
    hide Covers, Prune, DistinctRevs, Revs;
    var p, t := Prune(r.uid, v, ConflictsOf(r, d)), ForceConflict(r, d, v).value;
    KeptIsApart(r, d, v);
    ForcedIsStored(r, d, v);
    assert r.docs[d] in Held(r, d);
    OneMoreIsDistinct(p.kept, r.docs[d]);
    hide ForceConflict, Held;
    StoredIsApart(r, t, d, p.doc, p.kept + [r.docs[d]], v);
  }

  lemma SameContentKeepsApart(r: Replica, d: string, v: Version)
    requires DistinctHeld(r, d) && d in r.docs && forall h <- Held(r, d) :: !Covers(h.rev, v.rev)
    ensures DistinctHeld(Store(r, d, Version(Increment(Join(v.rev, RevOf(r, d)), r.uid), v.content)), d)
  {
    MergeOfSameContent(r, d, v);
    hide Covers, DistinctRevs, Revs, Increment, Join;
    var w := Version(Increment(Join(v.rev, RevOf(r, d)), r.uid), v.content);
    assert forall k <- ConflictsOf(r, d) :: k in Held(r, d);
    StoreIsStored(r, d, w);
    hide Store, Held;
    StoredIsApart(r, Store(r, d, w), d, w, ConflictsOf(r, d), v);
  }

  lemma MergeKeepsApart(r: Replica, d: string, v: Version)
    requires DistinctHeld(r, d) && Merge(r, d, v, true).Ok?
    requires !Covers(RevOf(r, d), v.rev) ==> forall h <- Held(r, d) :: !Covers(h.rev, v.rev)
    ensures DistinctHeld(Merge(r, d, v, true).value.replica, d)
  {
    hide DistinctHeld, StoreNewer, ForceConflict, Held;
    var cur := RevOf(r, d);
    NewerIsStrictOrder(v.rev, cur, v.rev);
    CoversItself(v.rev);
    hide Covers;
    if Newer(v.rev, cur) {
      StoreNewerKeepsApart(r, d, v);
    } else if v.rev == cur || Newer(cur, v.rev) {
      assert Merge(r, d, v, true).value.replica == r;
    } else if r.docs[d].content == v.content {
      SameContentKeepsApart(r, d, v);
    } else {
      ForceConflictKeepsApart(r, d, v);
    }
  }

  lemma NothingHeldCovers(l: Link, d: string, v: Version)
    requires FullInv(l) && GoodDownload(l, d, v) && !Covers(RevOf(l.client, d), v.rev)
    ensures forall h <- Held(l.client, d) :: !Covers(h.rev, v.rev)
  {
    FullInvOfDoc(l, d);
    DownloadIsNews(l, d, v);
    forall h <- Held(l.client, d) ensures !Covers(h.rev, v.rev) {
      NewIsNotCovered(l.client.uid, Held(l.client, d), v.rev, h);
    }
  }

  lemma ApartIgnoresKnown(r: Replica, source: string, p: SyncPoint, d: string)
    requires DistinctHeld(r, d)
    ensures DistinctHeld(SetKnown(r, source, p), d)
  {}

  lemma DeliverKeepsApart(l: Link, d: string)
    requires FullInv(l) && Apart(l) && AboutToDeliverSome(l)
    ensures DeliverStep(l).skipped == {} && DistinctHeld(DeliverStep(l).client, d)
    ensures NothingLost(l.client, DeliverStep(l).client)
  {
    var c, v := l.session.toReturn[l.session.delivered], l.session.returned[l.session.delivered];
    hide LinkInv, RefusalDoc, DistinctHeld, Refuses, Merge, DeliverStep, NothingLost;
    ApartIsNotRefused(l.client, c.docId, v);
    DeliverIsRefusal(l, c.docId, v);
    DeliverIsDelivery(l, c.docId, v);
    DownloadIsGood(l);
    hide PutDocIfNewer;
    var t := Merge(l.client, c.docId, v, true).value.replica;
    assert DeliverStep(l).client == SetKnown(t, l.server.uid, PointOf(c));
    if !Covers(RevOf(l.client, c.docId), v.rev) {
      NothingHeldCovers(l, c.docId, v);
    }
    hide GoodDownload, FullInv, Covers;
    MergeKeepsApart(l.client, c.docId, v);
    MergeTouches(l.client, c.docId, v, true);
    if d != c.docId {
      ApartElsewhere(l.client, t, c.docId, d);
    }
    ApartIgnoresKnown(t, l.server.uid, PointOf(c), d);
    MergeLosesNothing(l.client, c.docId, v, true);
    NothingLostByIdentity(t, DeliverStep(l).client);
    NothingLostTransitive(l.client, t, DeliverStep(l).client);
  }

  // ---------- every step of a careful run ----------

  lemma OtherStepsLeaveClient(l: Link, step: SyncStep)
    requires step == Deliver ==> !AboutToDeliverSome(l)
    ensures var n := Advance(l, step);
      n.client.docs == l.client.docs && n.client.conflicts == l.client.conflicts && n.skipped == l.skipped
  {
    hide Changes, ToReturn, Merge, PutDocIfNewer, AfterPut;
  }

  lemma AdvanceKeepsApart(l: Link, step: SyncStep)
    requires FullInv(l) && Apart(l)
    ensures Apart(Advance(l, step)) && NothingLost(l.client, Advance(l, step).client)
  {
    hide FullInv, Advance, DistinctHeld, NothingLost;
    var n := Advance(l, step);
    if step == Deliver && AboutToDeliverSome(l) {
      assert n == DeliverStep(l) by {
        DeliverIsAStep(l);
      }
      forall d ensures DistinctHeld(n.client, d) {
        DeliverKeepsApart(l, d);
      }
      DeliverKeepsApart(l, "");
    } else {
      OtherStepsLeaveClient(l, step);
      NothingLostByIdentity(l.client, n.client);
      forall d ensures DistinctHeld(n.client, d) {
        SameHeldIsApart(l.client, n.client, d);
      }
    }
  }

  lemma DeliverIsAStep(l: Link)
    ensures Advance(l, Deliver) == DeliverStep(l)
  {}

  lemma SameHeldIsApart(r: Replica, s: Replica, d: string)
    requires r.docs == s.docs && r.conflicts == s.conflicts && DistinctHeld(r, d)
    ensures DistinctHeld(s, d)
  {}

  lemma ClientActionKeepsApart(l: Link, a: LocalAction)
    requires FullInv(l) && Apart(l) && Perform(l.client, a).Ok?
    requires a.Resolve? ==> KeepsApart(l.client, a.docId, a.revs)
    ensures var t := Perform(l.client, a).value;
      Apart(l.(client := t)) && NothingLost(l.client, t)
  {
    FullInvOfDoc(l, a.docId);
    hide FullInv, DistinctHeld, Perform, KeepsApart, NothingLost, GoodReplica;
    forall d ensures DistinctHeld(Perform(l.client, a).value, d) {
      LocalActionKeepsApart(l.client, a, d);
    }
    LocalActionLosesNothing(l.client, a);
  }

  lemma ServerLosesNothing(l: Link, step: SyncStep)
    ensures NothingLost(l.server, Advance(l, step).server)
  {
    hide Changes, ToReturn, Merge, PutDocIfNewer, AfterPut, NothingLost;
    NothingLostByIdentity(l.server, Advance(l, step).server.(docs := l.server.docs, conflicts := l.server.conflicts));
    var ss := l.session;
    if step == Insert && Advance(l, step).server != l.server {
      MergeLosesNothing(l.server, ss.changes[|ss.outcomes|].docId, ss.sent[|ss.outcomes|], false);
    } else {
      NothingLostByIdentity(l.server, Advance(l, step).server);
    }
  }

  /** Nothing is lost anywhere. */
  ghost predicate NothingLostByStep(st: Star, n: Star) {
    && NothingLost(st.server, n.server)
    && n.clients.Keys == st.clients.Keys
    && forall i <- st.clients.Keys :: NothingLost(st.clients[i], n.clients[i])
  }

  lemma SyncKeepsApart(st: Star, uid: string, s: SyncStep)
    requires StarInv(st) && AllApart(st) && uid in st.clients
    ensures var n := Apply(st, Sync(uid, s)); AllApart(n) && NothingLostByStep(st, n)
  {
    hide FullInv, DistinctHeld, Advance, NothingLost;
    var l, n := LinkOf(st, uid), Apply(st, Sync(uid, s));
    ApplyKeepsShape(st, Sync(uid, s));
    AdvanceKeepsApart(l, s);
    ServerLosesNothing(l, s);
    forall i <- n.clients.Keys ensures Apart(LinkOf(n, i)) && NothingLost(st.clients[i], n.clients[i]) {
      if i != uid {
        assert Apart(LinkOf(st, i));
        NothingLostByIdentity(st.clients[i], n.clients[i]);
      }
    }
  }

  lemma LocalKeepsApart(st: Star, uid: string, a: LocalAction)
    requires StarInv(st) && AllApart(st) && Careful(st, Step.Local(uid, a))
    ensures var n := Apply(st, Step.Local(uid, a)); AllApart(n) && NothingLostByStep(st, n)
  {
    hide FullInv, DistinctHeld, Perform, NothingLost, Nameable, KeepsApart;
    var n := Apply(st, Step.Local(uid, a));
    ApplyKeepsShape(st, Step.Local(uid, a));
    NothingLostByIdentity(st.server, st.server);
    if uid == st.server.uid {
      if Perform(st.server, a).Ok? {
        LocalActionLosesNothing(st.server, a);
      }
    } else if uid in st.clients && Perform(st.clients[uid], a).Ok? {
      ClientActionKeepsApart(LinkOf(st, uid), a);
    }
    forall i <- n.clients.Keys ensures Apart(LinkOf(n, i)) && NothingLost(st.clients[i], n.clients[i]) {
      assert Apart(LinkOf(st, i));
      NothingLostByIdentity(st.clients[i], st.clients[i]);
    }
  }

  lemma CarefulStepKeepsApart(st: Star, step: Step)
    requires StarInv(st) && AllApart(st) && Careful(st, step)
    ensures var n := Apply(st, step); AllApart(n) && NothingLostByStep(st, n)
  {
    hide FullInv, DistinctHeld, Perform, NothingLost, Nameable, KeepsApart, Advance, Apart;
    match step
    case Local(uid, a) => LocalKeepsApart(st, uid, a);
    case Sync(uid, s) =>
      if uid in st.clients {
        SyncKeepsApart(st, uid, s);
      } else {
        NothingLostByIdentity(st.server, st.server);
        forall i <- st.clients.Keys ensures NothingLost(st.clients[i], st.clients[i]) {
          NothingLostByIdentity(st.clients[i], st.clients[i]);
        }
      }
  }

  lemma InitialIsApart(st: Star)
    requires Initial(st)
    ensures AllApart(st)
  {
    forall i <- st.clients.Keys, d: string ensures DistinctHeld(st.clients[i], d) {
      NoConflictsIsApart(st.clients[i], d);
    }
  }

  // ---------- careful runs ----------

  lemma CarefulPrefix(start: Star, steps: seq<Step>, k: nat)
    requires WellFormed(start) && CarefulRun(start, steps) && k <= |steps|
    ensures CarefulRun(start, steps[..k])
  {
    hide Careful, Run;
    forall j | 0 <= j < k ensures Careful(Run(start, steps[..k][..j]), steps[..k][j]) {
      assert steps[..k][..j] == steps[..j];
    }
  }

  /** In a careful run no delivery is ever refused. */
  lemma {:induction false} CarefulRunIsApart(start: Star, steps: seq<Step>)
    requires Initial(start) && CarefulRun(start, steps)
    ensures AllApart(Run(start, steps))
  {
    hide Careful, Apply, StarInv, AllApart;
    if steps == [] {
      InitialIsApart(start);
    } else {
      var init := steps[..|steps| - 1];
      CarefulPrefix(start, steps, |init|);
      CarefulRunIsApart(start, init);
      RunKeepsInv(start, init);
      CarefulStepKeepsApart(Run(start, init), steps[|steps| - 1]);
    }
  }

  /** So a document on which the two sides differ is always in the list one of them will send next. */
  lemma NothingIsMissed(start: Star, steps: seq<Step>, uid: string, d: string)
    requires Initial(start) && uid in start.clients && CarefulRun(start, steps)
    ensures var l := LinkOf(Run(start, steps), uid);
      || Agree(l, d)
      || Lists(Changes(l.client.log, KnownByServer(l).gen), d)
      || Lists(Changes(l.server.log, Known(l).gen), d)
  {
    hide FullInv, Run, Agree, Lists, CarefulRun, DistinctHeld;
    CarefulRunIsApart(start, steps);
    NothingIsMissedExactlyWhen(start, steps, uid, d);
    assert Apart(LinkOf(Run(start, steps), uid));
  }

  lemma ApartIsNeverSkipped(l: Link, d: string)
    requires Apart(l) && Found(l).client == l.client && Found(l).skipped == l.skipped
    ensures !WillBeSkipped(Found(l), d)
  {
    hide DistinctHeld, Refuses, Found;
    assert DistinctHeld(l.client, d);
    if d in Found(l).server.docs {
      ApartIsNotRefused(l.client, d, Found(l).server.docs[d]);
    }
  }

  /** A sync nobody interferes with ends in full agreement whenever the revisions are all different. */
  lemma QuietSyncAgrees(l: Link, d: string)
    requires FullInv(l) && l.session == NO_SESSION && Apart(l)
    ensures Agree(QuietSync(l), d) && QuietSync(l).skipped == {}
  {
    hide FullInv, QuietSync, StartStep, Agree, WillBeSkipped, Apart, Found;
    forall x ensures Agree(QuietSync(l), x) && x !in QuietSync(l).skipped {
      if StartStep(l) == l {
        NothingToExchange(l, x);
      } else {
        FoundIsReady(l);
      }
      QuietSyncAgreesExactlyWhen(l, x);
      ApartIsNeverSkipped(l, x);
    }
  }

  /** Whatever happened before, one undisturbed sync brings client and server together. */
  lemma ConvergesAfterAnyRun(start: Star, steps: seq<Step>, uid: string, d: string)
    requires Initial(start) && uid in start.clients && CarefulRun(start, steps)
    ensures Agree(QuietSync(LinkOf(Run(start, steps), uid).(session := NO_SESSION)), d)
  {
    hide FullInv, Run, QuietSync, Agree, CarefulRun, DistinctHeld;
    CarefulRunIsApart(start, steps);
    RunKeepsFullInv(start, steps, uid);
    var l := LinkOf(Run(start, steps), uid);
    assert Apart(l);
    AdvanceKeepsFullInv(l, Abort);
    AbortDropsSession(l);
    QuietSyncAgrees(l.(session := NO_SESSION), d);
  }

  lemma CarefulStepsLoseNothing(st: Star, n: Star, m: Star)
    requires NothingLostByStep(st, n) && NothingLostByStep(n, m)
    ensures NothingLostByStep(st, m)
  {
    hide NothingLost;
    NothingLostTransitive(st.server, n.server, m.server);
    forall i <- st.clients.Keys ensures NothingLost(st.clients[i], m.clients[i]) {
      NothingLostTransitive(st.clients[i], n.clients[i], m.clients[i]);
    }
  }

  lemma NothingLostInPlace(st: Star)
    ensures NothingLostByStep(st, st)
  {
    hide NothingLost;
    NothingLostByIdentity(st.server, st.server);
    forall i <- st.clients.Keys ensures NothingLost(st.clients[i], st.clients[i]) {
      NothingLostByIdentity(st.clients[i], st.clients[i]);
    }
  }

  lemma LastStepLosesNothing(start: Star, steps: seq<Step>)
    requires Initial(start) && CarefulRun(start, steps) && steps != []
    ensures NothingLostByStep(Run(start, steps[..|steps| - 1]), Run(start, steps))
  {
    hide Apply, Careful, StarInv, AllApart, NothingLostByStep;
    var init := steps[..|steps| - 1];
    CarefulPrefix(start, steps, |init|);
    CarefulRunIsApart(start, init);
    RunKeepsInv(start, init);
    CarefulStepKeepsApart(Run(start, init), steps[|steps| - 1]);
  }

  lemma NextStepLosesNothing(start: Star, steps: seq<Step>, k: nat)
    requires Initial(start) && CarefulRun(start, steps) && k < |steps|
    ensures NothingLostByStep(Run(start, steps[..k]), Run(start, steps[..k + 1]))
  {
    hide Run, NothingLostByStep;
    CarefulPrefix(start, steps, k + 1);
    assert steps[..k + 1][..k] == steps[..k];
    LastStepLosesNothing(start, steps[..k + 1]);
  }

  /**
   * No version is lost anywhere: what the server or a client holds at some moment of a careful run, it
   * holds at every later moment, or something newer.
   */
  lemma {:induction false} NothingIsLost(start: Star, steps: seq<Step>, i: nat, j: nat)
    requires Initial(start) && CarefulRun(start, steps) && i <= j <= |steps|
    ensures NothingLostByStep(Run(start, steps[..i]), Run(start, steps[..j]))
    decreases j - i
  {
    hide Run, CarefulRun, NothingLostByStep;
    if i == j {
      NothingLostInPlace(Run(start, steps[..i]));
    } else {
      NothingIsLost(start, steps, i, j - 1);
      NextStepLosesNothing(start, steps, j - 1);
      CarefulStepsLoseNothing(Run(start, steps[..i]), Run(start, steps[..j - 1]), Run(start, steps[..j]));
    }
  }
}
