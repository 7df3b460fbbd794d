/**
 * Which revisions a resolution may name. Everything the client has ever held can be named, also what
 * a refusal has lost; a revision nobody has seen can hide a change for good.
 */
module Naming {
  import opened ChangeLog
  import opened Documents
  import opened Guarantees
  import opened History
  import opened LinkClient
  import opened LinkInvariant
  import opened LinkReceive
  import opened LinkRefusal
  import opened LinkRely
  import opened Links
  import opened Replicas
  import opened Star
  import opened VectorClocks

  // ---------- what the client has learned it does not forget ----------

  /** Of the counters of others, the current version of every document keeps all it has. */
  ghost predicate Remembers(l: Link, n: Link) {
    n.client.uid == l.client.uid && forall d: string :: Foreign(l.client.uid, RevOf(l.client, d), RevOf(n.client, d))
  }

  lemma ForeignIsTransitive(own: string, a: Clock, b: Clock, c: Clock)
    requires Foreign(own, a, b) && Foreign(own, b, c)
    ensures Foreign(own, a, c)
  {
    forall k <- a.Keys | k != own ensures k in c && a[k] <= c[k] {
      assert k in b.Keys;
    }
  }

  lemma RemembersTransitive(l: Link, m: Link, n: Link)
    requires Remembers(l, m) && Remembers(m, n)
    ensures Remembers(l, n)
  {
    hide Foreign;
    forall d: string ensures Foreign(l.client.uid, RevOf(l.client, d), RevOf(n.client, d)) {
      ForeignIsTransitive(l.client.uid, RevOf(l.client, d), RevOf(m.client, d), RevOf(n.client, d));
    }
  }

  lemma SameDocsRemember(l: Link, n: Link)
    requires n.client.uid == l.client.uid && n.client.docs == l.client.docs
    ensures Remembers(l, n)
  {
    assert forall d: string :: RevOf(n.client, d) == RevOf(l.client, d);
  }

  lemma KeptRemembers(l: Link, t: Replica)
    requires Kept(l.client, t)
    ensures Remembers(l, l.(client := t))
  {
    hide Derived, Foreign, Covers;
    forall d: string ensures Foreign(l.client.uid, RevOf(l.client, d), RevOf(t, d)) {
      CoversIsForeign(l.client.uid, RevOf(l.client, d), RevOf(t, d));
    }
  }

  lemma CoversIsForeign(own: string, x: Clock, s: Clock)
    requires Covers(s, x)
    ensures Foreign(own, x, s)
  {}

  /** The delivered version includes what others had told the client before. */
  lemma DeliveredRemembers(l: Link, d: string, v: Version, t: Replica)
    requires AboutToDeliver(l, d, v) && Shape(l) && RefusalDoc(l, d) && Absorbed(l, d, v, t)
    ensures Foreign(l.client.uid, RevOf(l.client, d), RevOf(t, d))
  {
    IndexIsUnique(l.session.toReturn, l.session.delivered);
    CoversIsForeign(l.client.uid, RevOf(l.client, d), RevOf(l.client, d));
    AbsorbedCovers(l, d, v, t);
    hide Absorbed, Covers;
    if d in l.client.docs {
      assert l.client.docs[d] in Held(l.client, d);
      ExplainedGrows(l.client.uid, RevOf(l.client, d), v.rev, RevOf(t, d));
    }
  }

  lemma DeliverRemembersThis(l: Link, d: string, v: Version)
    requires FullInv(l) && AboutToDeliver(l, d, v) && !Refuses(l.client, d, v)
    ensures Foreign(l.client.uid, RevOf(l.client, d), RevOf(DeliverStep(l).client, d))
  {
    hide LinkInv, RefusalDoc, Refuses, Merge, DeliverStep, Absorbed, Foreign, Positive, DocInv, GoodDownload, Shape;
    DownloadIsGood(l);
    DeliverIsRefusal(l, d, v);
    DeliverIsDelivery(l, d, v);
    hide PutDocIfNewer;
    DownloadIsVersion(l, d, v);
    HeldIsPositive(l, d);
    MergeIsAbsorbed(l, d, v);
    FullInvOfDoc(l, d);
    var t := Merge(l.client, d, v, true).value.replica;
    DeliveredRemembers(l, d, v, t);
    assert RevOf(DeliverStep(l).client, d) == RevOf(t, d);
  }

  lemma DeliverRemembers(l: Link, d: string)
    requires FullInv(l) && AboutToDeliverSome(l)
    ensures Foreign(l.client.uid, RevOf(l.client, d), RevOf(DeliverStep(l).client, d))
  {
    var c, v := l.session.toReturn[l.session.delivered], l.session.returned[l.session.delivered];
    hide FullInv, LinkInv, Refuses, PutDocIfNewer, DeliverStep, Foreign;
    CoversItself(RevOf(l.client, d));
    CoversIsForeign(l.client.uid, RevOf(l.client, d), RevOf(l.client, d));
    if d != c.docId {
      DeliveryOfOthers(l, d);
    } else if Refuses(l.client, d, v) {
      FullInvGivesLinkInv(l);
      DeliverIsRefusal(l, d, v);
    } else {
      DeliverRemembersThis(l, d, v);
    }
  }

  lemma OtherStepsKeepDocs(l: Link, step: SyncStep)
    requires step == Deliver ==> !AboutToDeliverSome(l)
    ensures Advance(l, step).client.docs == l.client.docs && Advance(l, step).client.uid == l.client.uid
  {
    hide Changes, ToReturn, Merge, PutDocIfNewer, AfterPut;
  }

  lemma AdvanceRemembers(l: Link, step: SyncStep)
    requires FullInv(l)
    ensures Remembers(l, Advance(l, step))
  {
    hide FullInv, Advance, Foreign, AboutToDeliverSome;
    AdvanceKeepsUids(l, step);
    if step == Deliver && AboutToDeliverSome(l) {
      assert Advance(l, step) == DeliverStep(l) by {
        DeliverStepIsAdvance(l);
      }
      forall d: string ensures Foreign(l.client.uid, RevOf(l.client, d), RevOf(DeliverStep(l).client, d)) {
        DeliverRemembers(l, d);
      }
    } else {
      OtherStepsKeepDocs(l, step);
      SameDocsRemember(l, Advance(l, step));
    }
  }

  lemma DeliverStepIsAdvance(l: Link)
    ensures Advance(l, Deliver) == DeliverStep(l)
  {}

  lemma MovedRemembers(l: Link, n: Link)
    requires FullInv(l) && Moved(l, n)
    ensures Remembers(l, n)
  {
    hide FullInv, Advance, Kept, ServerIdle, ServerWrote, Remembers;
    if step :| n == Advance(l, step) {
      AdvanceRemembers(l, step);
    } else if n == l.(client := n.client) && Kept(l.client, n.client) {
      KeptRemembers(l, n.client);
    } else {
      SameDocsRemember(l, n);
    }
  }

  ghost function LinkAfter(start: Star, steps: seq<Step>, uid: string): Link
    requires WellFormed(start) && uid in start.clients
  {
    LinkOf(Run(start, steps), uid)
  }

  lemma NextStepRemembers(start: Star, steps: seq<Step>, uid: string, k: nat)
    requires Initial(start) && uid in start.clients && k < |steps|
    ensures Remembers(LinkAfter(start, steps[..k], uid), LinkAfter(start, steps[..k + 1], uid))
  {
    hide StarInv, Apply, FullInv, Moved, Remembers;
    var st := Run(start, steps[..k]);
    RunKeepsInv(start, steps[..k]);
    RunKeepsFullInv(start, steps[..k], uid);
    assert steps[..k + 1][..k] == steps[..k];
    StepMoves(st, uid, steps[k]);
    MovedRemembers(LinkOf(st, uid), LinkOf(Apply(st, steps[k]), uid));
  }

  lemma StepMoves(st: Star, uid: string, step: Step)
    requires StarInv(st) && uid in st.clients
    ensures var n := Apply(st, step);
      uid in n.clients && uid in n.sessions && uid in n.skipped && Moved(LinkOf(st, uid), LinkOf(n, uid))
  {
    hide StarInv, Apply, Moved;
    match step
    case Local(who, a) => LocalStepMoves(st, uid, who, a);
    case Sync(who, s) => SyncStepMoves(st, uid, who, s);
  }

  lemma {:induction false} RunRemembers(start: Star, steps: seq<Step>, uid: string, i: nat, j: nat)
    requires Initial(start) && uid in start.clients && i <= j <= |steps|
    ensures Remembers(LinkAfter(start, steps[..i], uid), LinkAfter(start, steps[..j], uid))
    decreases j - i
  {
    hide LinkAfter, Remembers;
    if i == j {
      SameDocsRemember(LinkAfter(start, steps[..i], uid), LinkAfter(start, steps[..j], uid));
    } else {
      RunRemembers(start, steps, uid, i, j - 1);
      NextStepRemembers(start, steps, uid, j - 1);
      RemembersTransitive(LinkAfter(start, steps[..i], uid), LinkAfter(start, steps[..j - 1], uid),
                          LinkAfter(start, steps[..j], uid));
    }
  }

  // ---------- what has been seen can be named ----------

  lemma ForeignToCurrentIsDerived(r: Replica, d: string, x: Clock)
    requires Positive(x) && Foreign(r.uid, x, RevOf(r, d))
    ensures Derived(r.uid, x, Held(r, d))
  {
    forall k <- x.Keys | k != r.uid ensures exists w <- Held(r, d) :: k in w.rev && x[k] <= w.rev[k] {
      assert r.docs[d] in Held(r, d);
    }
  }

  lemma HeldIsForeign(l: Link, d: string, v: Version)
    requires FullInv(l) && v in Held(l.client, d)
    ensures Positive(v.rev) && Foreign(l.client.uid, v.rev, RevOf(l.client, d))
  {
    FullInvOfDoc(l, d);
  }

  lemma RememberedIsDerived(l: Link, n: Link, d: string, v: Version)
    requires FullInv(l) && Remembers(l, n) && v in Held(l.client, d)
    ensures Derived(n.client.uid, v.rev, Held(n.client, d))
  {
    hide FullInv, Foreign, Positive, Derived, Held;
    HeldIsForeign(l, d, v);
    ForeignIsTransitive(l.client.uid, v.rev, RevOf(l.client, d), RevOf(n.client, d));
    ForeignToCurrentIsDerived(n.client, d, v.rev);
  }

  /**
   * In every run: a revision the client has held at some moment, current or in conflict, can be named
   * at every later one, whatever has become of it.
   */
  lemma SeenRevisionsCanBeNamed(start: Star, steps: seq<Step>, uid: string, i: nat, d: string, v: Version)
    requires Initial(start) && uid in start.clients && i <= |steps|
    requires v in Held(Run(start, steps[..i]).clients[uid], d)
    ensures var r := Run(start, steps).clients[uid];
      Derived(r.uid, v.rev, Held(r, d))
  {
    hide Run, FullInv, Remembers, Derived, Held;
    assert steps[..|steps|] == steps;
    RunKeepsFullInv(start, steps[..i], uid);
    RunRemembers(start, steps, uid, i, |steps|);
    RememberedIsDerived(LinkAfter(start, steps[..i], uid), LinkAfter(start, steps, uid), d, v);
  }
}
