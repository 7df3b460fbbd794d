/**
 * Which runs of the whole system lose a version: exactly those in which some delivery is refused and
 * drops a conflict. The last part is such a run.
 */
module Losses {
  import opened CarefulRuns
  import opened ChangeLog
  import opened ConcreteRuns
  import opened Documents
  import opened Guarantees
  import opened LinkClient
  import opened LinkInvariant
  import opened LinkReceive
  import opened LinkRefusal
  import opened Links
  import opened Preservation
  import opened Pruning
  import opened Refusals
  import opened Replicas
  import opened Star
  import opened VectorClocks
  import opened Wrappers

  // ---------- one step ----------

  /** A delivery that is refused and drops a conflict, told from the client and what it is about to take in. */
  ghost predicate Drops(l: Link, step: SyncStep) {
    && step == Deliver
    && AboutToDeliverSome(l)
    && var d, v := l.session.toReturn[l.session.delivered].docId, l.session.returned[l.session.delivered];
      Refuses(l.client, d, v) && DropsAConflict(l.client, d, v)
  }

  ghost predicate LosesAt(st: Star, step: Step, uid: string)
    requires WellFormed(st) && uid in st.clients
  {
    step.Sync? && step.uid == uid && Drops(LinkOf(st, uid), step.step)
  }

  lemma DeliveryLosesExactlyWhen(l: Link)
    requires FullInv(l) && AboutToDeliverSome(l)
    ensures NothingLost(l.client, DeliverStep(l).client) <==> !Drops(l, Deliver)
  {
    var c, v := l.session.toReturn[l.session.delivered], l.session.returned[l.session.delivered];
    hide FullInv, LinkInv, Refuses, Refuse, Merge, DeliverStep, NothingLost, DropsAConflict, PutDocIfNewer;
    FullInvGivesLinkInv(l);
    DeliverIsRefusal(l, c.docId, v);
    if Refuses(l.client, c.docId, v) {
      RefusalLosesExactlyWhen(l.client, c.docId, v);
    } else {
      DeliverIsDelivery(l, c.docId, v);
      var t := Merge(l.client, c.docId, v, true).value.replica;
      MergeLosesNothing(l.client, c.docId, v, true);
      NothingLostByIdentity(t, DeliverStep(l).client);
      NothingLostTransitive(l.client, t, DeliverStep(l).client);
    }
  }

  lemma AdvanceLosesExactlyWhen(l: Link, step: SyncStep)
    requires FullInv(l)
    ensures NothingLost(l.client, Advance(l, step).client) <==> !Drops(l, step)
  {
    hide FullInv, Advance, NothingLost, Refuses, DropsAConflict;
    if step == Deliver && AboutToDeliverSome(l) {
      DeliverIsAStep(l);
      DeliveryLosesExactlyWhen(l);
    } else {
      OtherStepsLeaveClient(l, step);
      NothingLostByIdentity(l.client, Advance(l, step).client);
    }
  }

  lemma StepLosesExactlyWhen(st: Star, step: Step, uid: string)
    requires StarInv(st) && uid in st.clients
    ensures uid in Apply(st, step).clients
    ensures NothingLost(st.clients[uid], Apply(st, step).clients[uid]) <==> !LosesAt(st, step, uid)
  {
    hide FullInv, Advance, NothingLost, Perform, Nameable, Drops;
    NothingLostByIdentity(st.clients[uid], st.clients[uid]);
    match step
    case Local(who, a) =>
      if who == uid && Perform(st.clients[uid], a).Ok? {
        LocalActionLosesNothing(st.clients[uid], a);
      }
    case Sync(who, s) =>
      if who == uid {
        AdvanceLosesExactlyWhen(LinkOf(st, uid), s);
      }
  }

  // ---------- whole runs ----------

  ghost function ClientAfter(start: Star, steps: seq<Step>, uid: string): Replica
    requires WellFormed(start) && uid in start.clients
  {
    Run(start, steps).clients[uid]
  }

  lemma NextStepLosesExactlyWhen(start: Star, steps: seq<Step>, uid: string, k: nat)
    requires Initial(start) && uid in start.clients && k < |steps|
    ensures NothingLost(ClientAfter(start, steps[..k], uid), ClientAfter(start, steps[..k + 1], uid))
      <==> !LosesAt(Run(start, steps[..k]), steps[k], uid)
  {
    hide StarInv, Apply, NothingLost, LosesAt;
    RunKeepsInv(start, steps[..k]);
    assert steps[..k + 1][..k] == steps[..k];
    StepLosesExactlyWhen(Run(start, steps[..k]), steps[k], uid);
  }

  lemma {:induction false} NothingLostSoFar(start: Star, steps: seq<Step>, uid: string, i: nat, j: nat)
    requires Initial(start) && uid in start.clients && i <= j <= |steps|
    requires forall k :: 0 <= k < |steps| ==> !LosesAt(Run(start, steps[..k]), steps[k], uid)
    ensures NothingLost(ClientAfter(start, steps[..i], uid), ClientAfter(start, steps[..j], uid))
    decreases j - i
  {
    hide ClientAfter, NothingLost, LosesAt, Run;
    if i == j {
      NothingLostByIdentity(ClientAfter(start, steps[..i], uid), ClientAfter(start, steps[..j], uid));
    } else {
      NothingLostSoFar(start, steps, uid, i, j - 1);
      NextStepLosesExactlyWhen(start, steps, uid, j - 1);
      NothingLostTransitive(ClientAfter(start, steps[..i], uid), ClientAfter(start, steps[..j - 1], uid),
                            ClientAfter(start, steps[..j], uid));
    }
  }

  /**
   * A client loses no version between any two moments of a run exactly when no delivery to it is
   * refused and drops a conflict.
   */
  lemma ClientLosesNothingExactlyWhen(start: Star, steps: seq<Step>, uid: string)
    requires Initial(start) && uid in start.clients
    ensures (forall i, j :: 0 <= i <= j <= |steps| ==>
              NothingLost(ClientAfter(start, steps[..i], uid), ClientAfter(start, steps[..j], uid)))
      <==> (forall k :: 0 <= k < |steps| ==> !LosesAt(Run(start, steps[..k]), steps[k], uid))
  {
    hide ClientAfter, NothingLost, LosesAt, Run;
    if forall k :: 0 <= k < |steps| ==> !LosesAt(Run(start, steps[..k]), steps[k], uid) {
      forall i, j | 0 <= i <= j <= |steps|
        ensures NothingLost(ClientAfter(start, steps[..i], uid), ClientAfter(start, steps[..j], uid))
      {
        NothingLostSoFar(start, steps, uid, i, j);
      }
    } else {
      var k :| 0 <= k < |steps| && LosesAt(Run(start, steps[..k]), steps[k], uid);
      NextStepLosesExactlyWhen(start, steps, uid, k);
      assert !NothingLost(ClientAfter(start, steps[..k], uid), ClientAfter(start, steps[..k + 1], uid));
    }
  }

  lemma ServerStepLosesNothing(st: Star, step: Step)
    requires WellFormed(st)
    ensures NothingLost(st.server, Apply(st, step).server)
  {
    hide Advance, NothingLost, Perform, Nameable;
    NothingLostByIdentity(st.server, st.server);
    match step
    case Local(who, a) =>
      if Perform(st.server, a).Ok? {
        LocalActionLosesNothing(st.server, a);
      }
    case Sync(who, s) =>
      if who in st.clients {
        ServerLosesNothing(LinkOf(st, who), s);
      }
  }

  /** The server, which saves no conflicts in a sync, never loses any. */
  lemma {:induction false} ServerLosesNothingEver(start: Star, steps: seq<Step>, more: seq<Step>)
    requires WellFormed(start)
    ensures NothingLost(Run(start, steps).server, Run(start, steps + more).server)
  {
    hide Apply, NothingLost;
    if more == [] {
      assert steps + more == steps;
      NothingLostByIdentity(Run(start, steps).server, Run(start, steps).server);
    } else {
      var init, last := more[..|more| - 1], more[|more| - 1];
      ServerLosesNothingEver(start, steps, init);
      assert steps + more == (steps + init) + [last];
      RunStep(start, steps + init, last);
      ServerStepLosesNothing(Run(start, steps + init), last);
      NothingLostTransitive(Run(start, steps).server, Run(start, steps + init).server, Run(start, steps + more).server);
    }
  }

  // ---------- a run that loses a version ----------

  function Own(k: int): Clock {
    map["s" := 1, "c" := k]
  }

  /** A client that has resolved its document in various ways without touching the current version. */
  function WithRows(ids: nat -> string, rows: seq<Version>): Replica {
    ClientWithD(ids).(conflicts := if rows == [] then map[] else map["d" := rows])
  }

  lemma RevisionOver(k: int)
    requires 1 <= k
    ensures MaximalRev("c", S1, [Own(k)]) == Own(k + 1)
    ensures MaximalRev("c", S1, []) == Own(1) && MaximalRev("c", S1, [S1]) == Own(1)
    ensures Own(k) != S1
  {
    assert [Own(k)][..0] == [] && [S1][..0] == [];
    assert JoinAll(S1, []) == S1;
    assert Join(S1, Own(k)) == Own(k) && Join(S1, S1) == S1;
    assert JoinAll(S1, [Own(k)]) == Own(k) && JoinAll(S1, [S1]) == S1;
    assert Increment(Own(k), "c") == Own(k + 1) && Increment(S1, "c") == Own(1);
    assert "c" in Own(k) && "c" !in S1;
  }

  /** One more conflict, in place of those it names. */
  lemma OneMoreRow(ids: nat -> string, rows: seq<Version>, content: Content, revs: seq<Clock>, k: int, left: seq<Version>)
    requires S1 !in revs && MaximalRev("c", S1, revs) == Own(k)
    requires forall v <- rows :: v.rev != Own(k)
    requires left == Without(rows + [Version(Own(k), content)], SetOf(revs)) && left != []
    ensures Perform(WithRows(ids, rows), Resolve("d", content, revs)) == Ok(WithRows(ids, left))
  {
    hide MaximalRev, Without, SetOf;
    var r := WithRows(ids, rows);
    assert ConflictsOf(r, "d") == rows;
    assert WithConflicts(r.conflicts, "d", left) == map["d" := left];
  }

  lemma WithoutTwo(a: Version, b: Version, revs: set<Clock>)
    ensures Without([a], revs) == if a.rev in revs then [] else [a]
    ensures Without([a, b], revs) == (if a.rev in revs then [] else [a]) + if b.rev in revs then [] else [b]
  {
    assert Without([], revs) == [];
    hide Without;
    WithoutOneMore([], a, revs);
    WithoutOneMore([a], b, revs);
    assert [] + [a] == [a] && [a] + [b] == [a, b];
  }

  lemma OwnDiffers(j: int, k: int)
    ensures j != k ==> Own(j) != Own(k)
    ensures Own(j) != S1
  {
    assert Own(j)["c"] == j && Own(k)["c"] == k && "c" !in S1;
  }

  const TWIN := Version(Own(1), SECOND)

  /** The row the client will lose. */
  const LOST := Version(Own(3), THIRD)

  function ClientAtRisk(ids: nat -> string): Replica {
    WithRows(ids, [TWIN, LOST]).(docs := map["d" := Version(Own(1), FIRST)],
                                 log := [Entry("d", ids(1)), Entry("d", ids(2))])
  }

  /** The fifth resolution supersedes the current version and computes the revision of the twin. */
  lemma LastResolution(ids: nat -> string)
    ensures Perform(WithRows(ids, [TWIN, LOST]), Resolve("d", FIRST, [S1])) == Ok(ClientAtRisk(ids))
  {
    hide MaximalRev, Without, Own, TWIN, LOST;
    RevisionOver(1);
    OwnDiffers(1, 3);
    OwnDiffers(3, 1);
    RowsAtRisk();
    WithoutTwo(TWIN, LOST, SetOf([S1]));
    var r, rows := WithRows(ids, [TWIN, LOST]), [TWIN, LOST];
    assert ConflictsOf(r, "d") == rows && [TWIN] + [LOST] == rows;
    assert WithConflicts(r.conflicts, "d", rows) == r.conflicts;
    assert r.docs["d" := Version(Own(1), FIRST)] == map["d" := Version(Own(1), FIRST)];
    assert r.log + [Entry("d", ids(2))] == [Entry("d", ids(1)), Entry("d", ids(2))];
  }

  lemma RowsAtRisk()
    ensures TWIN.rev == Own(1) && LOST.rev == Own(3)
  {}

  lemma FirstRow(ids: nat -> string)
    ensures Perform(WithRows(ids, []), Resolve("d", SECOND, [])) == Ok(WithRows(ids, [Version(Own(1), SECOND)]))
  {
    hide MaximalRev, Without, Own, Perform;
    var a := Version(Own(1), SECOND);
    RevisionOver(1);
    WithoutTwo(a, a, SetOf([]));
    assert [] + [a] == [a];
    OneMoreRow(ids, [], SECOND, [], 1, [a]);
  }

  lemma SecondRow(ids: nat -> string)
    ensures Perform(WithRows(ids, [Version(Own(1), SECOND)]), Resolve("d", THIRD, [Own(1)])) ==
      Ok(WithRows(ids, [Version(Own(2), THIRD)]))
  {
    hide MaximalRev, Without, Own, Perform;
    var a, b := Version(Own(1), SECOND), Version(Own(2), THIRD);
    RevisionOver(1);
    OwnDiffers(1, 2);
    WithoutTwo(a, b, SetOf([Own(1)]));
    assert [a] + [b] == [a, b];
    OneMoreRow(ids, [a], THIRD, [Own(1)], 2, [b]);
  }

  lemma ThirdRow(ids: nat -> string)
    ensures Perform(WithRows(ids, [Version(Own(2), THIRD)]), Resolve("d", SECOND, [])) ==
      Ok(WithRows(ids, [Version(Own(2), THIRD), Version(Own(1), SECOND)]))
  {
    hide MaximalRev, Without, Own, Perform;
    var a, b := Version(Own(1), SECOND), Version(Own(2), THIRD);
    RevisionOver(1);
    OwnDiffers(1, 2);
    WithoutTwo(b, a, SetOf([]));
    assert [b] + [a] == [b, a];
    OneMoreRow(ids, [b], SECOND, [], 1, [b, a]);
  }

  lemma FourthRow(ids: nat -> string)
    ensures Perform(WithRows(ids, [Version(Own(2), THIRD), Version(Own(1), SECOND)]), Resolve("d", THIRD, [Own(2)])) ==
      Ok(WithRows(ids, [TWIN, LOST]))
  {
    hide MaximalRev, Without, Own, Perform;
    var a, b := Version(Own(1), SECOND), Version(Own(2), THIRD);
    assert TWIN == a && LOST == Version(Own(3), THIRD);
    hide TWIN, LOST;
    RevisionOver(2);
    OwnDiffers(1, 2);
    OwnDiffers(2, 3);
    OwnDiffers(1, 3);
    WithoutTwo(b, a, SetOf([Own(2)]));
    WithoutOneMore([b, a], LOST, SetOf([Own(2)]));
    assert [a] + [LOST] == [a, LOST];
    OneMoreRow(ids, [b, a], THIRD, [Own(2)], 3, [TWIN, LOST]);
  }

  // ---------- ... and the delivery that is refused ----------

  function AtRisk(ids: nat -> string): Link {
    var s := ServerWithD(ids, map["c" := SyncPoint(1, ids(1))]);
    Link(s.(docs := map["d" := Version(S2, THIRD)], log := [Entry("d", ids(1)), Entry("d", ids(2))]),
         ClientAtRisk(ids), NO_SESSION, {})
  }

  lemma OwnIsApart(k: int)
    requires 1 <= k
    ensures !Covers(S2, Own(k)) && !Covers(Own(k), S2) && !Newer(S2, Own(k))
  {
    assert "c" in Own(k).Keys && "c" !in S2;
    assert "s" in S2.Keys && S2["s"] > Own(k)["s"];
  }

  lemma RiskIsConflicting(ids: nat -> string)
    ensures Conflicting(AtRisk(ids), "d")
  {
    hide Covers;
    OwnIsApart(1);
  }

  /** The version to come says what the second row says; the first row keeps it from being stored. */
  lemma DeliveryDropsARow(ids: nat -> string)
    ensures var r, v := ClientAtRisk(ids), Version(S2, THIRD);
      && ConflictsOf(r, "d") == [TWIN, LOST]
      && RevGoes(v, [TWIN, LOST], LOST.rev) && !RevGoes(v, [TWIN, LOST], TWIN.rev)
      && Refuses(r, "d", v)
      && Held(Refuse(r, "d", v), "d") == {Version(Own(1), FIRST), TWIN}
  {
    var r, v, cs := ClientAtRisk(ids), Version(S2, THIRD), [TWIN, LOST];
    OwnIsApart(1);
    OwnDiffers(1, 3);
    assert cs[..0] == [] && MergedClock(v, []) == S2;
    hide Newer, Covers, Own, Prune;
    assert Goes(v, cs, 1) && !Goes(v, cs, 0);
    assert TWIN in cs && ConflictsOf(r, "d") == cs;
    RefusesExactlyWhen(r, "d", v);
    forall c ensures c in Held(Refuse(r, "d", v), "d") <==> c == Version(Own(1), FIRST) || c == TWIN {
      HeldAfterRefusal(r, "d", v, c);
    }
  }

  lemma LostDoesNotSurvive()
    ensures !Survives(LOST, {Version(Own(1), FIRST), TWIN})
  {
    assert "c" in Own(3).Keys && Own(1)["c"] < Own(3)["c"];
    assert !Covers(Own(1), Own(3));
  }

  const LOSING_SYNC := ONE_DOC_SYNC + [Deliver] + [Complete]

  lemma LosingSyncSteps(l: Link)
    ensures AdvanceAll(l, LOSING_SYNC) == CompleteStep(DeliverStep(AdvanceAll(l, ONE_DOC_SYNC)))
  {
    hide AdvanceAll, ONE_DOC_SYNC, DeliverStep, CompleteStep;
    AdvanceAllAppend(l, ONE_DOC_SYNC + [Deliver], [Complete]);
    AdvanceAllAppend(l, ONE_DOC_SYNC, [Deliver]);
    AdvanceOne(AdvanceAll(l, ONE_DOC_SYNC), Deliver);
    AdvanceOne(DeliverStep(AdvanceAll(l, ONE_DOC_SYNC)), Complete);
  }

  lemma RefusedHere(ids: nat -> string)
    ensures var l := AtRisk(ids);
      DeliverStep(AdvanceAll(l, ONE_DOC_SYNC)) ==
        Link(SetKnown(l.server, "c", SyncPoint(2, ids(2))), Refuse(l.client, "d", Version(S2, THIRD)),
             Delivering(l, "d").(delivered := 1), {"d"})
  {
    var l := AtRisk(ids);
    hide AdvanceAll, ONE_DOC_SYNC, Merge, Refuses, RevGoes, Own, TWIN, LOST, Prune, WithConflicts;
    RiskIsConflicting(ids);
    OneDocSync(l, "d");
    DeliveryDropsARow(ids);
    MergeFailsExactlyWhen(l.client, "d", Version(S2, THIRD), true);
    var before := AdvanceAll(l, ONE_DOC_SYNC);
    assert before.session == Delivering(l, "d") && before.server == SetKnown(l.server, "c", SyncPoint(2, ids(2)));
    assert DeliverStep(before) == before.(client := Refuse(l.client, "d", Version(S2, THIRD)),
                                          session := before.session.(delivered := 1), skipped := {"d"});
  }

  lemma LosingSync(ids: nat -> string)
    ensures var n := AdvanceAll(AtRisk(ids), LOSING_SYNC);
      && n.session.phase == Finished
      && Held(n.client, "d") == {Version(Own(1), FIRST), TWIN}
  {
    hide AdvanceAll, LOSING_SYNC, DeliverStep, Refuses, Refuse, RevGoes, Own, TWIN, LOST;
    LosingSyncSteps(AtRisk(ids));
    RefusedHere(ids);
    DeliveryDropsARow(ids);
    CompletingKeepsHeld(DeliverStep(AdvanceAll(AtRisk(ids), ONE_DOC_SYNC)), "d");
    hide ONE_DOC_SYNC, Held;
  }

  lemma CompletingKeepsHeld(l: Link, d: string)
    ensures Held(CompleteStep(l).client, d) == Held(l.client, d)
  {}

  lemma NameSeen(ids: nat -> string, steps: seq<Step>, content: Content, revs: seq<Clock>) returns (more: seq<Step>)
    requires var r := Shown(ids, steps).client;
      Nameable(r, Resolve("d", content, revs)) && Perform(r, Resolve("d", content, revs)).Ok?
    ensures var l := Shown(ids, steps);
      Shown(ids, more) == l.(client := Perform(l.client, Resolve("d", content, revs)).value)
  {
    hide Run, Perform, Nameable;
    more := steps + [Step.Local("c", Resolve("d", content, revs))];
    RunOfClientAction(Begin(ids), steps, "c", Resolve("d", content, revs));
  }

  lemma RowsAreNameable(ids: nat -> string, rows: seq<Version>, content: Content, k: int)
    requires 1 <= k
    ensures Nameable(WithRows(ids, rows), Resolve("d", content, []))
    ensures Nameable(WithRows(ids, rows), Resolve("d", content, [S1]))
    ensures Nameable(WithRows(ids, rows), Resolve("d", content, [Own(k)]))
  {
    var r := WithRows(ids, rows);
    assert Version(S1, FIRST) in Held(r, "d");
  }

  lemma GetAtRisk(ids: nat -> string) returns (steps: seq<Step>)
    ensures Shown(ids, steps) == AtRisk(ids)
  {
    hide Shown, AdvanceAll, Perform, Nameable, WithRows, Own;
    NothingShown(ids);
    var put := PutAtServer(ids, [], "d", None, 0, FIRST);
    assert Shown(ids, put) == Link(ServerWithD(ids, map[]), Empty("c", ids), NO_SESSION, {});
    steps := SyncShown(ids, put);
    FirstSync(ids);
    NoRows(ids);
    var a, b := Version(Own(1), SECOND), Version(Own(2), THIRD);
    FirstRow(ids);
    RowsAreNameable(ids, [], SECOND, 1);
    steps := NameSeen(ids, steps, SECOND, []);
    SecondRow(ids);
    RowsAreNameable(ids, [a], THIRD, 1);
    steps := NameSeen(ids, steps, THIRD, [Own(1)]);
    ThirdRow(ids);
    RowsAreNameable(ids, [b], SECOND, 1);
    steps := NameSeen(ids, steps, SECOND, []);
    FourthRow(ids);
    RowsAreNameable(ids, [b, a], THIRD, 2);
    steps := NameSeen(ids, steps, THIRD, [Own(2)]);
    LastResolution(ids);
    RowsAreNameable(ids, [TWIN, LOST], FIRST, 1);
    steps := NameSeen(ids, steps, FIRST, [S1]);
    assert Shown(ids, steps) == WithD(ids).(client := ClientAtRisk(ids));
    steps := PutAtServer(ids, steps, "d", Some(S1), 1, THIRD);
    PutOverFirst(ids);
  }

  lemma NoRows(ids: nat -> string)
    ensures WithD(ids).client == WithRows(ids, [])
  {}

  lemma PutOverFirst(ids: nat -> string)
    ensures Store(WithD(ids).server, "d", Version(S2, THIRD)) == AtRisk(ids).server
  {}

  /** A whole sync has completed meanwhile, and a conflict the client had is gone, with nothing that covers it. */
  ghost predicate LosesAConflict(before: Link, after: Link, d: string, v: Version) {
    && v in ConflictsOf(before.client, d)
    && after.session.phase == Finished
    && !Survives(v, Held(after.client, d))
    && !NothingLost(before.client, after.client)
  }

  lemma SyncLosesIt(ids: nat -> string)
    ensures LosesAConflict(AtRisk(ids), AdvanceAll(AtRisk(ids), LOSING_SYNC), "d", LOST)
  {
    hide AdvanceAll, LOSING_SYNC, Survives;
    LosingSync(ids);
    LostDoesNotSurvive();
    DeliveryDropsARow(ids);
    assert LOST in [TWIN, LOST];
    assert LOST in Held(AtRisk(ids).client, "d");
  }

  /**
   * It does happen: at the end of `steps` the client holds a version, as a conflict nobody has resolved.
   * One more whole sync, in which nobody else takes part, and it is lost.
   */
  lemma ARefusalCanLoseAVersion(ids: nat -> string)
    ensures Initial(Begin(ids))
    ensures exists steps ::
      LosesAConflict(Shown(ids, steps), Shown(ids, steps + Syncs("c", LOSING_SYNC)), "d", LOST)
  {
    hide Run, AdvanceAll, LOSING_SYNC, LosesAConflict;
    BeginIsInitial(ids);
    var steps := GetAtRisk(ids);
    RunOfSyncs(Begin(ids), steps, "c", LOSING_SYNC);
    SyncLosesIt(ids);
    assert LosesAConflict(Shown(ids, steps), Shown(ids, steps + Syncs("c", LOSING_SYNC)), "d", LOST);
  }
}
