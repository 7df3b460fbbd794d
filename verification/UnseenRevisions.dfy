/**
 * Why a resolution may only name revisions that have been seen: a concrete run in which one names a
 * counter the server has not reached, and the next change on the server never arrives.
 */
module UnseenRevisions {
  import opened ChangeLog
  import opened ConcreteRuns
  import opened Documents
  import opened Guarantees
  import opened LinkClient
  import opened Links
  import opened Losses
  import opened Pruning
  import opened Refusals
  import opened Replicas
  import opened Star
  import opened VectorClocks
  import opened Wrappers

  const S3: Clock := map["s" := 3]
  const S9: Clock := map["s" := 9]
  const S9C1: Clock := map["s" := 9, "c" := 1]
  const S9C2: Clock := map["s" := 9, "c" := 2]

  /** The server has not written the ninth version of anything. */
  const UNSEEN := Resolve("d", SECOND, [S9])

  function Named(ids: nat -> string): Replica {
    ClientWithD(ids).(conflicts := map["d" := [Version(S9C1, SECOND)]])
  }

  lemma UnseenRevision()
    ensures MaximalRev("c", S1, [S9]) == S9C1 && S9C1 != S9
  {
    assert [S9][..0] == [] && JoinAll(S1, []) == S1 && Join(S1, S9) == S9;
    assert JoinAll(S1, [S9]) == S9 && Increment(S9, "c") == S9C1;
    assert "c" in S9C1 && "c" !in S9;
  }

  lemma NamingTheUnseen(ids: nat -> string)
    ensures Perform(ClientWithD(ids), UNSEEN) == Ok(Named(ids))
  {
    hide MaximalRev, Without;
    var added := Version(S9C1, SECOND);
    UnseenRevision();
    assert S1["s"] == 1 && S9["s"] == 9;
    WithoutTwo(added, added, SetOf([S9]));
    assert [] + [added] == [added];
  }

  lemma NotSeen(ids: nat -> string)
    ensures !Nameable(ClientWithD(ids), UNSEEN)
  {
    var held := Held(ClientWithD(ids), "d");
    assert held == {Version(S1, FIRST)};
    assert S1["s"] == 1 && S9["s"] == 9;
    assert "s" in S9.Keys && !exists w <- held :: "s" in w.rev && S9["s"] <= w.rev["s"];
    assert S9 in [S9];
  }

  // ---------- the conflict merges with the server's next version ----------

  function Resolved(ids: nat -> string): Replica {
    Named(ids).(docs := map["d" := Version(S1C1, THIRD)], log := [Entry("d", ids(1)), Entry("d", ids(2))])
  }

  lemma ResolvingTheRest(ids: nat -> string)
    ensures Perform(Named(ids), Resolve("d", THIRD, [S1])) == Ok(Resolved(ids))
    ensures Nameable(Named(ids), Resolve("d", THIRD, [S1]))
  {
    hide JoinAll, Increment, Without;
    SecondRevision();
    var added, r := Version(S9C1, SECOND), Named(ids);
    assert S9C1["s"] == 9 && S1["s"] == 1;
    WithoutTwo(added, added, SetOf([S1]));
    assert ConflictsOf(r, "d") == [added];
    assert WithConflicts(r.conflicts, "d", [added]) == r.conflicts;
    assert r.docs["d" := Version(S1C1, THIRD)] == map["d" := Version(S1C1, THIRD)];
    assert r.log + [Entry("d", ids(2))] == [Entry("d", ids(1)), Entry("d", ids(2))];
    assert Version(S1, FIRST) in Held(r, "d");
  }

  function ServerTwo(ids: nat -> string): Replica {
    ServerWithD(ids, map["c" := SyncPoint(1, ids(1))]).(
      docs := map["d" := Version(S2, SECOND)], log := [Entry("d", ids(1)), Entry("d", ids(2))])
  }

  function Diverged(ids: nat -> string): Link {
    Link(ServerTwo(ids), Resolved(ids), NO_SESSION, {})
  }

  lemma DivergedConflicts(ids: nat -> string)
    ensures Conflicting(Diverged(ids), "d")
  {
    NeitherCovers();
    hide Covers;
  }

  function Merged(ids: nat -> string): Replica {
    Replica("c", ids, map["d" := Version(S9C2, SECOND)], map["d" := [Version(S1C1, THIRD)]],
            [Entry("d", ids(1)), Entry("d", ids(2)), Entry("d", ids(3))], map["s" := SyncPoint(2, ids(2))])
  }

  lemma ConflictIsMergedIn()
    ensures Prune("c", Version(S2, SECOND), [Version(S9C1, SECOND)]) == Pruned(Version(S9C2, SECOND), [], true)
  {
    var v, c := Version(S2, SECOND), Version(S9C1, SECOND);
    assert "c" in S9C1.Keys && "c" !in S2;
    assert Join(S2, S9C1) == S9C1 && Increment(S9C1, "c") == S9C2;
    ScanOfConcat(v, [], c);
    assert [] + [c] == [c];
    assert ScanAll(v, [c]) == Scan(S9C1, {S9C1}, true);
    WithoutTwo(c, c, {S9C1});
  }

  /** The server's second version comes in; it says what the conflict says. */
  lemma SecondComesIn(ids: nat -> string)
    ensures PutDocIfNewer(Resolved(ids), "d", Version(S2, SECOND), true, "s", SyncPoint(2, ids(2))) ==
      Ok(Taken(ConflictFound, Merged(ids)))
  {
    NeitherCovers();
    ConflictIsMergedIn();
    hide Covers, Newer, Prune;
    var r, v, mine := Resolved(ids), Version(S2, SECOND), Version(S1C1, THIRD);
    assert ConflictsOf(r, "d") == [Version(S9C1, SECOND)];
    assert [] + [mine] == [mine];
    assert WithConflicts(r.conflicts, "d", [mine]) == map["d" := [mine]];
    assert r.docs["d" := Version(S9C2, SECOND)] == map["d" := Version(S9C2, SECOND)];
    assert r.log + [Entry("d", ids(3))] == [Entry("d", ids(1)), Entry("d", ids(2)), Entry("d", ids(3))];
    assert r.known["s" := SyncPoint(2, ids(2))] == map["s" := SyncPoint(2, ids(2))];
  }

  const WHOLE_SYNC := ONE_DOC_SYNC + [Deliver, Complete, CheckGapless] + [RecordInfo]

  lemma WholeSyncSteps(l: Link)
    ensures AdvanceAll(l, WHOLE_SYNC) ==
      RecordInfoStep(CheckGaplessStep(CompleteStep(DeliverStep(AdvanceAll(l, ONE_DOC_SYNC)))))
  {
    hide AdvanceAll, ONE_DOC_SYNC, DeliverStep, CompleteStep, CheckGaplessStep, RecordInfoStep;
    var b := [Deliver, Complete, CheckGapless];
    AdvanceAllAppend(l, ONE_DOC_SYNC + b, [RecordInfo]);
    AdvanceAllAppend(l, ONE_DOC_SYNC, b);
    AdvanceThree(AdvanceAll(l, ONE_DOC_SYNC), Deliver, Complete, CheckGapless);
    AdvanceOne(AdvanceAll(l, ONE_DOC_SYNC + b), RecordInfo);
  }

  function Together(ids: nat -> string): Link {
    Link(ServerTwo(ids).(known := map["c" := SyncPoint(3, ids(3))]), Merged(ids), NO_SESSION, {})
  }

  function Delivered(ids: nat -> string): Link {
    var l := Diverged(ids);
    Link(l.server.(known := map["c" := SyncPoint(2, ids(2))]), Merged(ids),
         Delivering(l, "d").(delivered := 1, numInserted := 1, numLogged := 1), {})
  }

  lemma FirstDelivered(ids: nat -> string)
    ensures DeliverStep(AdvanceAll(Diverged(ids), ONE_DOC_SYNC)) == Delivered(ids)
  {
    var l := Diverged(ids);
    hide AdvanceAll, ONE_DOC_SYNC, PutDocIfNewer;
    DivergedConflicts(ids);
    OneDocSync(l, "d");
    SecondComesIn(ids);
    assert l.server.known["c" := SyncPoint(2, ids(2))] == map["c" := SyncPoint(2, ids(2))];
  }

  lemma Completed(ids: nat -> string)
    ensures var l := Delivered(ids); CompleteStep(l) == l.(session := l.session.(phase := Finished))
  {
    assert map["s" := SyncPoint(2, ids(2))]["s" := SyncPoint(2, ids(2))] == map["s" := SyncPoint(2, ids(2))];
  }

  lemma Reported(ids: nat -> string)
    ensures RecordInfoStep(CheckGaplessStep(CompleteStep(Delivered(ids)))) == Together(ids)
  {
    Completed(ids);
    hide CompleteStep;
    assert map["c" := SyncPoint(2, ids(2))]["c" := SyncPoint(3, ids(3))] == map["c" := SyncPoint(3, ids(3))];
  }

  lemma FirstWholeSync(ids: nat -> string)
    ensures AdvanceAll(Diverged(ids), WHOLE_SYNC) == Together(ids)
  {
    hide AdvanceAll, DeliverStep, CompleteStep, CheckGaplessStep, RecordInfoStep, Together, Delivered, Diverged;
    WholeSyncSteps(Diverged(ids));
    FirstDelivered(ids);
    Reported(ids);
  }

  // ---------- the server's third version is taken for an old one ----------

  function Changed(ids: nat -> string): Link {
    var l := Together(ids);
    l.(server := l.server.(docs := map["d" := Version(S3, FIRST)],
                           log := [Entry("d", ids(1)), Entry("d", ids(2)), Entry("d", ids(3))]))
  }

  lemma ThirdIsIgnored(ids: nat -> string)
    ensures PutDocIfNewer(Merged(ids), "d", Version(S3, FIRST), true, "s", SyncPoint(3, ids(3))) ==
      Ok(Taken(Superseded, Merged(ids).(known := map["s" := SyncPoint(3, ids(3))])))
  {
    assert "c" in S9C2 && "c" !in S3;
    assert Newer(S9C2, S3);
    assert !Newer(S3, S9C2) && S3 != S9C2;
    hide Newer;
    assert map["s" := SyncPoint(2, ids(2))]["s" := SyncPoint(3, ids(3))] == map["s" := SyncPoint(3, ids(3))];
  }

  lemma NothingToSend(ids: nat -> string)
    ensures ReturnStep(FindStep(StartStep(Changed(ids)))) ==
      Changed(ids).(session := NO_SESSION.(phase := Receiving, startGen := 3, newPoint := SyncPoint(3, ids(3)),
        toReturn := [Change("d", 3, ids(3))], returned := [Version(S3, FIRST)]))
  {
    var l := Changed(ids);
    NoChangeYet(l.client.log, 3);
    hide ChangesUpTo, ToReturn;
    assert StartStep(l) == l.(session := NO_SESSION.(phase := Sending, startGen := 3));
    hide FindStep, ReturnStep, StartStep;
    OneIsReturned(StartStep(l), "d");
  }

  const QUIET_SYNC := [SyncStep.Start, Find, SyncStep.Return] + [Deliver] + [Complete]

  lemma QuietSyncSteps(l: Link)
    ensures AdvanceAll(l, QUIET_SYNC) == CompleteStep(DeliverStep(ReturnStep(FindStep(StartStep(l)))))
  {
    hide AdvanceAll, StartStep, FindStep, ReturnStep, DeliverStep, CompleteStep;
    var a := [SyncStep.Start, Find, SyncStep.Return];
    AdvanceAllAppend(l, a + [Deliver], [Complete]);
    AdvanceAllAppend(l, a, [Deliver]);
    AdvanceThree(l, SyncStep.Start, Find, SyncStep.Return);
    AdvanceOne(AdvanceAll(l, a), Deliver);
    AdvanceOne(AdvanceAll(l, a + [Deliver]), Complete);
  }

  lemma SecondWholeSync(ids: nat -> string)
    ensures AdvanceAll(Changed(ids), QUIET_SYNC) ==
      Link(Changed(ids).server, Merged(ids).(known := map["s" := SyncPoint(3, ids(3))]),
           AdvanceAll(Changed(ids), QUIET_SYNC).session, {})
    ensures AdvanceAll(Changed(ids), QUIET_SYNC).session.phase == Finished
  {
    var l := Changed(ids);
    QuietSyncSteps(l);
    NothingToSend(ids);
    ThirdIsIgnored(ids);
    hide AdvanceAll, QUIET_SYNC, PutDocIfNewer, StartStep, FindStep, ReturnStep;
    var before := ReturnStep(FindStep(StartStep(l)));
    var r := Merged(ids).(known := map["s" := SyncPoint(3, ids(3))]);
    assert DeliverStep(before) == Link(l.server, r, before.session.(delivered := 1), {});
    assert SetKnown(r, "s", SyncPoint(3, ids(3))) == r;
  }

  // ---------- the whole run ----------

  lemma SyncFrom(start: Star, steps: seq<Step>, syncs: seq<SyncStep>) returns (more: seq<Step>)
    requires WellFormed(start) && "c" in start.clients
    ensures LinkOf(Run(start, more), "c") == AdvanceAll(LinkOf(Run(start, steps), "c"), syncs)
  {
    more := steps + Syncs("c", syncs);
    RunOfSyncs(start, steps, "c", syncs);
  }

  lemma PutFrom(start: Star, steps: seq<Step>, rev: Option<Clock>, n: nat, content: Content) returns (more: seq<Step>)
    requires WellFormed(start) && "c" in start.clients && start.server.uid == "s"
    requires var r := Run(start, steps).server;
      r.conflicts == map[] && "d" in r.docs && rev == Some(r.docs["d"].rev) && r.docs["d"].content != None
    requires rev == Some(map["s" := n]) && n > 0
    ensures var l := LinkOf(Run(start, steps), "c");
      LinkOf(Run(start, more), "c") == l.(server := Store(l.server, "d", Version(map["s" := n + 1], content)))
  {
    hide Run, Perform, Store;
    more := steps + [Step.Local("s", Put("d", rev, content))];
    PutSucceeds(Run(start, steps).server, "d", rev, n, content);
    RunOfServerAction(start, steps, "c", Put("d", rev, content));
  }

  lemma PutsShow(ids: nat -> string)
    ensures Store(WithD(ids).server, "d", Version(S2, SECOND)) == ServerTwo(ids)
    ensures Store(Together(ids).server, "d", Version(S3, FIRST)) == Changed(ids).server
  {}

  lemma GetWithD(ids: nat -> string) returns (steps: seq<Step>)
    ensures Shown(ids, steps) == WithD(ids)
  {
    hide Shown, AdvanceAll;
    NothingShown(ids);
    var put := PutAtServer(ids, [], "d", None, 0, FIRST);
    assert Shown(ids, put) == Link(ServerWithD(ids, map[]), Empty("c", ids), NO_SESSION, {});
    steps := SyncShown(ids, put);
    FirstSync(ids);
  }

  lemma FromThere(ids: nat -> string, st: Star) returns (more: seq<Step>)
    requires WellFormed(st) && "c" in st.clients && LinkOf(st, "c") == WithD(ids).(client := Named(ids))
    ensures LinkOf(Run(st, more), "c") == AdvanceAll(Changed(ids), QUIET_SYNC)
  {
    hide AdvanceAll, Perform, Nameable, Store;
    assert Run(st, []) == st;
    hide Run;
    ResolvingTheRest(ids);
    RunOfClientAction(st, [], "c", Resolve("d", THIRD, [S1]));
    more := [] + [Step.Local("c", Resolve("d", THIRD, [S1]))];
    assert LinkOf(Run(st, more), "c") == WithD(ids).(client := Resolved(ids));
    PutsShow(ids);
    more := PutFrom(st, more, Some(S1), 1, SECOND);
    assert LinkOf(Run(st, more), "c") == Diverged(ids);
    more := SyncFrom(st, more, WHOLE_SYNC);
    FirstWholeSync(ids);
    more := PutFrom(st, more, Some(S2), 2, FIRST);
    assert LinkOf(Run(st, more), "c") == Changed(ids);
    more := SyncFrom(st, more, QUIET_SYNC);
  }

  /** The sync is complete, nothing was refused, and the two differ on a document neither of them lists. */
  ghost predicate MissesAChange(l: Link, d: string) {
    && l.session.phase == Finished && l.skipped == {}
    && !Agree(l, d)
    && !Lists(Changes(l.client.log, KnownByServer(l).gen), d)
    && !Lists(Changes(l.server.log, Known(l).gen), d)
  }

  lemma LeftDifferent(ids: nat -> string)
    ensures MissesAChange(AdvanceAll(Changed(ids), QUIET_SYNC), "d")
  {
    hide AdvanceAll, QUIET_SYNC, Lists, Changes, LastGen;
    SecondWholeSync(ids);
    BothLogsAreKnown(ids);
    var l := AdvanceAll(Changed(ids), QUIET_SYNC);
    ListedExactlyIfChanged(l.client.log, KnownByServer(l).gen, "d");
    ListedExactlyIfChanged(l.server.log, Known(l).gen, "d");
  }

  lemma BothLogsAreKnown(ids: nat -> string)
    ensures LastGen([Entry("d", ids(1)), Entry("d", ids(2)), Entry("d", ids(3))], "d") == 3
  {
    LastRowIsLast([Entry("d", ids(1)), Entry("d", ids(2)), Entry("d", ids(3))]);
  }

  /** The same state, but for what the client is. */
  ghost function WithClient(ids: nat -> string, steps: seq<Step>, r: Replica): (named: Star)
    requires r.uid == "c"
    ensures WellFormed(named) && "c" in named.clients && LinkOf(named, "c") == Shown(ids, steps).(client := r)
  {
    var st := Run(Begin(ids), steps);
    st.(clients := st.clients["c" := r])
  }

  /** The program lets the client resolve that way, although it names what nobody has written. */
  ghost predicate ResolvesUnseen(r: Replica, t: Replica) {
    Perform(r, UNSEEN) == Ok(t) && !Nameable(r, UNSEEN)
  }

  /**
   * From a reachable state in which the client makes such a resolution only allowed steps follow, and a
   * change on the server is missed.
   */
  lemma AnUnseenRevisionHidesAChange(ids: nat -> string)
    ensures Initial(Begin(ids))
    ensures exists steps, t: Replica, more ::
      && t.uid == "c" && ResolvesUnseen(Shown(ids, steps).client, t)
      && MissesAChange(LinkOf(Run(WithClient(ids, steps, t), more), "c"), "d")
  {
    BeginIsInitial(ids);
    hide Run, Shown, AdvanceAll, QUIET_SYNC, MissesAChange, Nameable, Perform, UNSEEN, WithClient;
    var steps := GetWithD(ids);
    var t := Named(ids);
    NamingTheUnseen(ids);
    NotSeen(ids);
    var more := FromThere(ids, WithClient(ids, steps, t));
    LeftDifferent(ids);
    assert ResolvesUnseen(Shown(ids, steps).client, t);
    assert MissesAChange(LinkOf(Run(WithClient(ids, steps, t), more), "c"), "d");
  }
}
