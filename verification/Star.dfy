/**
 * One server and any number of clients, each syncing with the server only. Local writes and
 * the steps of all sessions interleave freely, and a session may be abandoned at any step.
 */
module Star {
  import opened ChangeLog
  import opened Documents
  import opened LinkClient
  import opened LinkInvariant
  import opened LinkRefusal
  import opened LinkRely
  import opened LinkSend
  import opened Links
  import opened Pruning
  import opened Replicas
  import opened VectorClocks
  import opened Wrappers

  /** `skipped` notes for each client the documents whose last delivery was refused. */
  datatype Star = Star(
    server: Replica,
    clients: map<string, Replica>,
    sessions: map<string, Session>,
    skipped: map<string, set<string>>)

  datatype Step =
    | Local(uid: string, action: LocalAction)
    | Sync(uid: string, step: SyncStep)

  ghost predicate WellFormed(st: Star) {
    && st.sessions.Keys == st.clients.Keys == st.skipped.Keys
    && st.server.uid !in st.clients
    && forall i <- st.clients.Keys :: st.clients[i].uid == i
  }

  ghost function LinkOf(st: Star, uid: string): Link
    requires uid in st.clients && uid in st.sessions && uid in st.skipped
  {
    Link(st.server, st.clients[uid], st.sessions[uid], st.skipped[uid])
  }

  ghost function WithLink(st: Star, uid: string, l: Link): Star {
    Star(l.server, st.clients[uid := l.client], st.sessions[uid := l.session], st.skipped[uid := l.skipped])
  }

  /** Resolving happens at clients, with revisions they can have seen; the server holds no conflicts. */
  ghost function Apply(st: Star, step: Step): Star
    requires WellFormed(st)
  {
    match step
    case Local(uid, a) =>
      if uid == st.server.uid then
        if a.Resolve? || Perform(st.server, a).Err? then st
        else st.(server := Perform(st.server, a).value)
      else if uid in st.clients && Nameable(st.clients[uid], a) && Perform(st.clients[uid], a).Ok? then
        st.(clients := st.clients[uid := Perform(st.clients[uid], a).value])
      else st
    case Sync(uid, s) =>
      if uid in st.clients then WithLink(st, uid, Advance(LinkOf(st, uid), s)) else st
  }

  ghost predicate StarInv(st: Star) {
    && WellFormed(st)
    && forall i <- st.clients.Keys :: FullInv(LinkOf(st, i))
  }

  ghost predicate Fresh(r: Replica) {
    r.docs == map[] && r.conflicts == map[] && r.log == [] && r.known == map[]
  }

  /** Nothing has been written and no session is open. */
  ghost predicate Initial(st: Star) {
    && WellFormed(st)
    && Fresh(st.server)
    && forall i <- st.clients.Keys :: Fresh(st.clients[i]) && st.sessions[i] == NO_SESSION && st.skipped[i] == {}
  }

  lemma InitialHasInv(st: Star)
    requires Initial(st)
    ensures StarInv(st)
  {
    forall i <- st.clients.Keys ensures FullInv(LinkOf(st, i)) {
      var l := LinkOf(st, i);
      assert Shape(l);
      forall d: string ensures DocInv(l, d) && RefusalDoc(l, d) {
        assert Held(l.client, d) == {};
      }
    }
  }

  // ---------- writes on the server ----------

  lemma StoreIsServerWrite(r: Replica, own: string, d: string, content: Content)
    requires own != r.uid && Positive(RevOf(r, d))
    ensures var v := Version(Increment(RevOf(r, d), r.uid), content);
      ServerWrote(own, r, Store(r, d, v), d, v)
  {
    hide Covers;
    var s := RevOf(r, d);
    var w := Increment(s, r.uid);
    IncrementIsNewer(s, r.uid);
    PositiveIsKept(s, s, r.uid);
    assert r.uid in w && (r.uid in s ==> s[r.uid] < w[r.uid]);
    assert GrowsElsewhere(own, s, w);
    assert Entry(d, r.ids(|r.log| + 1)).docId == d;
  }

  lemma ActionStoresAnIncrement(r: Replica, a: LocalAction)
    requires !a.Resolve? && Perform(r, a).Ok?
    ensures exists content ::
      Perform(r, a).value == Store(r, a.docId, Version(Increment(RevOf(r, a.docId), r.uid), content))
  {
    hide Increment, Store;
    match a
    case Put(d, rev, content) =>
      assert Perform(r, a).value == Store(r, d, Version(Increment(RevOf(r, d), r.uid), content));
    case Delete(d, rev) =>
      assert Perform(r, a).value == Store(r, d, Version(Increment(RevOf(r, d), r.uid), None));
  }

  lemma ServerActionIsServerWrite(l: Link, a: LocalAction)
    requires LinkInv(l) && !a.Resolve? && Perform(l.server, a).Ok?
    ensures var t := Perform(l.server, a).value;
      a.docId in t.docs && ServerWrote(l.client.uid, l.server, t, a.docId, t.docs[a.docId])
  {
    assert DocInv(l, a.docId);
    hide LinkInv, DocInv, Perform, Increment, ServerWrote;
    ActionStoresAnIncrement(l.server, a);
    var content :| Perform(l.server, a).value ==
      Store(l.server, a.docId, Version(Increment(RevOf(l.server, a.docId), l.server.uid), content));
    StoreIsServerWrite(l.server, l.client.uid, a.docId, content);
  }

  /** An upload that changes the server is, for every other client, a write by someone else. */
  lemma UploadIsServerWrite(l: Link, other: string, d: string, x: Version, o: Outcome, t: Replica)
    requires LinkInv(l) && GoodUpload(l, d, x) && Answered(l, d, x, o, t) && t != l.server
    requires other != l.client.uid && other != l.server.uid
    ensures ServerWrote(other, l.server, t, d, t.docs[d])
  {
    assert DocInv(l, d);
    var s, w := RevOf(l.server, d), t.docs[d].rev;
    if o == Inserted {
      UploadGrows(l.client.uid, other, x.rev, s);
    } else {
      MergeGrows(l.client.uid, other, l.server.uid, x.rev, s);
    }
  }

  lemma AgreeingIsEqual(x: Clock, s: Clock)
    requires Covers(x, s)
    ensures (forall k <- x.Keys :: k in s && x[k] == s[k]) ==> x == s
  {
    if forall k <- x.Keys :: k in s && x[k] == s[k] {
      assert x.Keys == s.Keys;
    }
  }

  lemma UploadGrows(own: string, other: string, x: Clock, s: Clock)
    requires Newer(x, s) && Foreign(own, x, s) && other != own
    ensures Count(x, other) == Count(s, other) && GrowsElsewhere(other, s, x)
  {
    assert other in x.Keys ==> other in s && x[other] <= s[other];
    assert other in s.Keys ==> other in x && s[other] <= x[other];
    AgreeingIsEqual(x, s);
    var k :| k in x.Keys && !(k in s && x[k] == s[k]);
    assert k in s.Keys ==> s[k] <= x[k];
    assert k == own;
  }

  lemma MergeGrows(own: string, other: string, server: string, x: Clock, s: Clock)
    requires Foreign(own, x, s) && other != own && other != server
    ensures var w := Increment(Join(x, s), server);
      Count(w, other) == Count(s, other) && GrowsElsewhere(other, s, w)
  {
    var w := Increment(Join(x, s), server);
    assert other in x.Keys ==> other in s && x[other] <= s[other];
    assert server in w && (server in s ==> s[server] < w[server]);
  }

  /** What one client's step does to the server, as another client sees it. */
  lemma AdvanceSeenByOthers(l: Link, step: SyncStep, other: string)
    requires LinkInv(l) && other != l.client.uid && other != l.server.uid
    ensures var t := Advance(l, step).server;
      ServerIdle(other, l.server, t) || exists d, w :: ServerWrote(other, l.server, t, d, w)
  {
    hide DocInv, Changes, ToReturn, PutDocIfNewer, AfterPut, Newer, GoodUpload, GoodChanges, Merge;
    var t := Advance(l, step).server;
    if step == Insert && t != l.server {
      var ss := l.session;
      var d, x := ss.changes[|ss.outcomes|].docId, ss.sent[|ss.outcomes|];
      UploadIsGood(l);
      assert DocInv(l, d);
      GoodServerVersion(l, d);
      MergeIsAnswered(l, d, x);
      UploadIsServerWrite(l, other, d, x, Merge(l.server, d, x, false).value.outcome, t);
    }
  }

  lemma GoodServerVersion(l: Link, d: string)
    requires DocInv(l, d)
    ensures d in l.server.docs ==> GoodVersion(l.server.docs[d])
  {}

  // ---------- every step ----------

  lemma ServerActionKeepsInv(st: Star, a: LocalAction)
    requires StarInv(st) && !a.Resolve? && Perform(st.server, a).Ok?
    ensures StarInv(st.(server := Perform(st.server, a).value))
  {
    hide LinkInv, RefusalDoc, Perform, ServerWrote, ServerIdle;
    var n := st.(server := Perform(st.server, a).value);
    LocalKeepsUid(st.server, a);
    forall i <- n.clients.Keys ensures FullInv(LinkOf(n, i)) {
      var l := LinkOf(st, i);
      ServerActionIsServerWrite(l, a);
      assert ServerWrote(l.client.uid, l.server, n.server, a.docId, n.server.docs[a.docId]);
      ServerChangeKeepsFullInv(l, n.server);
      assert LinkOf(n, i) == l.(server := n.server);
    }
  }

  lemma LocalKeepsUid(r: Replica, a: LocalAction)
    ensures Perform(r, a).Ok? ==> Perform(r, a).value.uid == r.uid
  {}

  lemma ClientActionKeepsInv(st: Star, uid: string, a: LocalAction)
    requires StarInv(st) && uid in st.clients
    requires Nameable(st.clients[uid], a) && Perform(st.clients[uid], a).Ok?
    ensures StarInv(st.(clients := st.clients[uid := Perform(st.clients[uid], a).value]))
  {
    hide FullInv, Nameable, Perform;
    var c := Perform(st.clients[uid], a).value;
    var n := st.(clients := st.clients[uid := c]);
    LocalKeepsUid(st.clients[uid], a);
    LocalActionKeepsFullInv(LinkOf(st, uid), a);
    forall i <- n.clients.Keys ensures FullInv(LinkOf(n, i)) {
      if i == uid {
        assert LinkOf(n, i) == LinkOf(st, i).(client := c);
      } else {
        assert LinkOf(n, i) == LinkOf(st, i);
      }
    }
  }

  lemma AdvanceKeepsUids(l: Link, step: SyncStep)
    ensures Advance(l, step).client.uid == l.client.uid && Advance(l, step).server.uid == l.server.uid
  {
    hide Changes, ToReturn, Prune, Newer, Join, Increment, WithConflicts, ValidateSource;
  }

  lemma SyncStepKeepsInv(st: Star, uid: string, step: SyncStep)
    requires StarInv(st) && uid in st.clients
    ensures StarInv(WithLink(st, uid, Advance(LinkOf(st, uid), step)))
  {
    hide LinkInv, RefusalDoc, Advance, ServerIdle, ServerWrote;
    var l, m := LinkOf(st, uid), Advance(LinkOf(st, uid), step);
    var n := WithLink(st, uid, m);
    AdvanceKeepsUids(l, step);
    AdvanceKeepsFullInv(l, step);
    forall i <- n.clients.Keys ensures FullInv(LinkOf(n, i)) {
      if i == uid {
        assert LinkOf(n, i) == m;
      } else {
        assert i in st.clients;
        AdvanceSeenByOthers(l, step, i);
        ServerChangeKeepsFullInv(LinkOf(st, i), m.server);
        assert LinkOf(n, i) == LinkOf(st, i).(server := m.server);
      }
    }
  }

  lemma ApplyKeepsInv(st: Star, step: Step)
    requires StarInv(st)
    ensures StarInv(Apply(st, step))
  {
    hide FullInv, Nameable, Perform, Advance;
    match step
    case Local(uid, a) =>
      if uid == st.server.uid {
        if !a.Resolve? && Perform(st.server, a).Ok? {
          ServerActionKeepsInv(st, a);
        }
      } else if uid in st.clients && Nameable(st.clients[uid], a) && Perform(st.clients[uid], a).Ok? {
        ClientActionKeepsInv(st, uid, a);
      }
    case Sync(uid, s) =>
      if uid in st.clients {
        SyncStepKeepsInv(st, uid, s);
      }
  }

  lemma ApplyKeepsShape(st: Star, step: Step)
    requires WellFormed(st)
    ensures var n := Apply(st, step);
      WellFormed(n) && n.clients.Keys == st.clients.Keys && n.server.uid == st.server.uid
  {
    hide Advance, Perform, Nameable;
    match step
    case Local(uid, a) =>
      LocalKeepsUid(st.server, a);
      if uid in st.clients {
        LocalKeepsUid(st.clients[uid], a);
      }
    case Sync(uid, s) =>
      if uid in st.clients {
        AdvanceKeepsUids(LinkOf(st, uid), s);
      }
  }

  /** The state after a run of steps. */
  ghost function Run(st: Star, steps: seq<Step>): (n: Star)
    requires WellFormed(st)
    ensures WellFormed(n) && n.clients.Keys == st.clients.Keys && n.server.uid == st.server.uid
  {
    if steps == [] then st
    else
      var before := Run(st, steps[..|steps| - 1]);
      ApplyKeepsShape(before, steps[|steps| - 1]);
      Apply(before, steps[|steps| - 1])
  }

  /** The invariant of every link holds after any run from an initial state. */
  lemma {:induction false} RunKeepsInv(start: Star, steps: seq<Step>)
    requires Initial(start)
    ensures StarInv(Run(start, steps))
  {
    assert WellFormed(start);
    hide Apply, StarInv, Initial;
    if steps == [] {
      InitialHasInv(start);
    } else {
      RunKeepsInv(start, steps[..|steps| - 1]);
      ApplyKeepsInv(Run(start, steps[..|steps| - 1]), steps[|steps| - 1]);
    }
  }

  /** So does that of one link. */
  lemma RunKeepsFullInv(start: Star, steps: seq<Step>, uid: string)
    requires Initial(start) && uid in start.clients
    ensures FullInv(LinkOf(Run(start, steps), uid))
  {
    RunKeepsInv(start, steps);
    hide Run, Initial, FullInv;
  }

  lemma MergeExtendsLog(r: Replica, docId: string, v: Version, saveConflict: bool)
    ensures var m := Merge(r, docId, v, saveConflict);
      m.Ok? ==> r.log <= m.value.replica.log
  {
    hide Newer, Join, Increment, Prune;
  }

  lemma ActionExtendsLog(r: Replica, a: LocalAction)
    requires !a.Resolve? && Perform(r, a).Ok?
    ensures r.log <= Perform(r, a).value.log
  {
    hide Perform;
    ActionStoresAnIncrement(r, a);
  }

  lemma AdvanceExtendsServerLog(l: Link, step: SyncStep)
    ensures l.server.log <= Advance(l, step).server.log
  {
    hide Changes, ToReturn, Merge, PutDocIfNewer, AfterPut;
    var ss := l.session;
    if step == Insert && |ss.outcomes| < |ss.sent| && |ss.outcomes| < |ss.changes| {
      MergeExtendsLog(l.server, ss.changes[|ss.outcomes|].docId, ss.sent[|ss.outcomes|], false);
    }
  }

  lemma StepExtendsServerLog(st: Star, step: Step)
    requires WellFormed(st)
    ensures st.server.log <= Apply(st, step).server.log
  {
    hide Perform, Advance, Nameable;
    match step
    case Local(uid, a) =>
      if !a.Resolve? && Perform(st.server, a).Ok? {
        ActionExtendsLog(st.server, a);
      }
    case Sync(uid, s) =>
      if uid in st.clients {
        AdvanceExtendsServerLog(LinkOf(st, uid), s);
      }
  }

  /**
   * The server's log only grows. So the generation it reports once documents are returned is never
   * behind the one it reported when documents had been sent.
   */
  lemma {:induction false} ServerLogOnlyGrows(start: Star, steps: seq<Step>, more: seq<Step>)
    requires WellFormed(start)
    ensures Run(start, steps).server.log <= Run(start, steps + more).server.log
  {
    hide Apply;
    if more == [] {
      assert steps + more == steps;
    } else {
      var init, last := more[..|more| - 1], more[|more| - 1];
      ServerLogOnlyGrows(start, steps, init);
      assert (steps + more)[..|steps + more| - 1] == steps + init;
      StepExtendsServerLog(Run(start, steps + init), last);
    }
  }
}
