/**
 * A concrete run in which a delivery is refused and the sync goes on: afterwards client and server
 * differ on a document that neither of them lists any more.
 */
module Refusals {
  import opened ChangeLog
  import opened ConcreteRuns
  import opened Documents
  import opened Guarantees
  import opened LinkClient
  import opened Links
  import opened Pruning
  import opened Replicas
  import opened Star
  import opened VectorClocks
  import opened Wrappers

  const S1: Clock := map["s" := 1]
  const S2: Clock := map["s" := 2]
  const S1C1: Clock := map["s" := 1, "c" := 1]

  // ---------- first sync: the client gets the document ----------

  function ServerWithD(ids: nat -> string, known: map<string, SyncPoint>): Replica {
    Replica("s", ids, map["d" := Version(S1, FIRST)], map[], [Entry("d", ids(1))], known)
  }

  function ClientWithD(ids: nat -> string): Replica {
    Replica("c", ids, map["d" := Version(S1, FIRST)], map[], [Entry("d", ids(1))], map["s" := SyncPoint(1, ids(1))])
  }

  function WithD(ids: nat -> string): Link {
    Link(ServerWithD(ids, map["c" := SyncPoint(1, ids(1))]), ClientWithD(ids), NO_SESSION, {})
  }

  const FIRST_SYNC :=
    [SyncStep.Start, Find, SyncStep.Return] + [Deliver, Complete, CheckGapless] + [RecordInfo]

  lemma FirstSyncSteps(l: Link)
    ensures AdvanceAll(l, FIRST_SYNC) == RecordInfoStep(CheckGaplessStep(CompleteStep(
      DeliverStep(ReturnStep(FindStep(StartStep(l)))))))
  {
    hide AdvanceAll, StartStep, FindStep, ReturnStep, DeliverStep, CompleteStep, CheckGaplessStep, RecordInfoStep;
    var a, b := [SyncStep.Start, Find, SyncStep.Return], [Deliver, Complete, CheckGapless];
    AdvanceAllAppend(l, a + b, [RecordInfo]);
    AdvanceAllAppend(l, a, b);
    AdvanceThree(l, SyncStep.Start, Find, SyncStep.Return);
    AdvanceThree(AdvanceAll(l, a), Deliver, Complete, CheckGapless);
    AdvanceOne(AdvanceAll(l, a + b), RecordInfo);
  }

  lemma FirstStarted(ids: nat -> string)
    ensures var l := Link(ServerWithD(ids, map[]), Empty("c", ids), NO_SESSION, {});
      StartStep(l) == l.(session := NO_SESSION.(phase := Sending))
  {
    assert Changes([], 0) == [];
  }

  lemma FirstFound(ids: nat -> string)
    ensures var l := Link(ServerWithD(ids, map[]), Empty("c", ids), NO_SESSION, {});
      FindStep(StartStep(l)) == l.(session := NO_SESSION.(phase := Receiving, newPoint := SyncPoint(1, ids(1)),
                                                          toReturn := [Change("d", 1, ids(1))]))
  {
    hide Changes, ToReturn, StartStep;
    FirstStarted(ids);
    OneNewChange(ServerWithD(ids, map[]).log);
    AllAreReturned(Changes(ServerWithD(ids, map[]).log, 0));
  }

  lemma FirstReceived(ids: nat -> string)
    ensures var l := Link(ServerWithD(ids, map[]), Empty("c", ids), NO_SESSION, {});
      var n := ReturnStep(FindStep(StartStep(l)));
      n == l.(session := NO_SESSION.(phase := Receiving, newPoint := SyncPoint(1, ids(1)),
                                     toReturn := [Change("d", 1, ids(1))], returned := [Version(S1, FIRST)]))
  {
    hide StartStep, FindStep;
    FirstFound(ids);
  }

  lemma FirstSync(ids: nat -> string)
    ensures AdvanceAll(Link(ServerWithD(ids, map[]), Empty("c", ids), NO_SESSION, {}), FIRST_SYNC) == WithD(ids)
  {
    var l := Link(ServerWithD(ids, map[]), Empty("c", ids), NO_SESSION, {});
    FirstSyncSteps(l);
    FirstReceived(ids);
    hide AdvanceAll, FIRST_SYNC, StartStep, FindStep, ReturnStep, PutDocIfNewer;
    assert "s" in S1;
    NewDocIsTaken(l.client, "d", Version(S1, FIRST), "s", SyncPoint(1, ids(1)));
    var received := ReturnStep(FindStep(StartStep(l)));
    var delivered := DeliverStep(received);
    assert delivered == Link(l.server, ClientWithD(ids),
      received.session.(delivered := 1, numInserted := 1, numLogged := 1), {});
  }

  // ---------- two resolutions share a revision ----------

  function ClientResolved(ids: nat -> string): Replica {
    ClientWithD(ids).(docs := map["d" := Version(S1C1, THIRD)],
                      conflicts := map["d" := [Version(S1C1, SECOND)]],
                      log := [Entry("d", ids(1)), Entry("d", ids(2))])
  }

  lemma FirstResolution(ids: nat -> string)
    ensures Perform(ClientWithD(ids), Resolve("d", SECOND, [])) ==
      Ok(ClientWithD(ids).(conflicts := map["d" := [Version(S1C1, SECOND)]]))
  {
    var added := Version(S1C1, SECOND);
    assert JoinAll(S1, []) == S1 && Increment(S1, "c") == S1C1;
    assert [] + [added] == [added] && [added][..0] == [];
    assert Without([added], {}) == [added];
    assert SetOf([]) == {};
  }

  lemma SecondRevision()
    ensures JoinAll(S1, [S1]) == S1 && Increment(S1, "c") == S1C1 && S1C1 != S1
  {
    JoinAbsorbs(S1, S1);
    assert [S1][..0] == [];
    assert JoinAll(S1, []) == S1;
    assert "c" in S1C1 && "c" !in S1;
    assert Increment(S1, "c") == S1C1;
  }

  lemma SecondResolution(ids: nat -> string)
    ensures Perform(ClientWithD(ids).(conflicts := map["d" := [Version(S1C1, SECOND)]]), Resolve("d", THIRD, [S1])) ==
      Ok(ClientResolved(ids))
  {
    hide JoinAll, Increment;
    SecondRevision();
    var added := Version(S1C1, SECOND);
    assert [added][..0] == [];
    assert SetOf([S1]) == {S1};
    assert Without([added], {S1}) == [added];
    var r := ClientWithD(ids).(conflicts := map["d" := [added]]);
    assert ConflictsOf(r, "d") == [added];
    assert map["d" := Version(S1, FIRST)]["d" := Version(S1C1, THIRD)] == map["d" := Version(S1C1, THIRD)];
    assert [Entry("d", ids(1))] + [Entry("d", ids(2))] == [Entry("d", ids(1)), Entry("d", ids(2))];
    assert WithConflicts(r.conflicts, "d", [added]) == r.conflicts;
    hide Without, SetOf;
    assert ResolveDoc(r, "d", THIRD, [S1]).value == ClientResolved(ids);
  }

  // ---------- the server goes on ----------

  function Ready(ids: nat -> string): Link {
    var s := ServerWithD(ids, map["c" := SyncPoint(1, ids(1))]);
    Link(s.(docs := map["d" := Version(S2, FIRST), "e" := Version(S1, FIRST)],
            log := [Entry("d", ids(1)), Entry("d", ids(2)), Entry("e", ids(3))]),
         ClientResolved(ids), NO_SESSION, {})
  }

  lemma TwoMorePuts(ids: nat -> string)
    ensures var s := ServerWithD(ids, map["c" := SyncPoint(1, ids(1))]);
      Store(Store(s, "d", Version(S2, FIRST)), "e", Version(S1, FIRST)) == Ready(ids).server
  {}

  lemma GetReady(ids: nat -> string) returns (steps: seq<Step>)
    ensures Shown(ids, steps) == Ready(ids)
  {
    hide Shown, AdvanceAll, Perform, Nameable;
    NothingShown(ids);
    var put := PutAtServer(ids, [], "d", None, 0, FIRST);
    assert Shown(ids, put) == Link(ServerWithD(ids, map[]), Empty("c", ids), NO_SESSION, {});
    var synced := SyncShown(ids, put);
    FirstSync(ids);
    assert Shown(ids, synced) == WithD(ids);
    FirstResolution(ids);
    var once := ResolveShown(ids, synced, SECOND, []);
    SecondResolution(ids);
    var twice := ResolveShown(ids, once, THIRD, [S1]);
    assert Shown(ids, twice) == WithD(ids).(client := ClientResolved(ids));
    var more := PutAtServer(ids, twice, "d", Some(S1), 1, FIRST);
    steps := PutAtServer(ids, more, "e", None, 0, FIRST);
    TwoMorePuts(ids);
  }

  lemma SyncShown(ids: nat -> string, steps: seq<Step>) returns (more: seq<Step>)
    ensures Shown(ids, more) == AdvanceAll(Shown(ids, steps), FIRST_SYNC)
  {
    hide Run, AdvanceAll, FIRST_SYNC;
    more := steps + Syncs("c", FIRST_SYNC);
    RunOfSyncs(Begin(ids), steps, "c", FIRST_SYNC);
  }

  lemma ResolveShown(ids: nat -> string, steps: seq<Step>, content: Content, revs: seq<Clock>) returns (more: seq<Step>)
    requires var r := Shown(ids, steps).client;
      && "d" in r.docs && r.docs["d"].rev == S1
      && (forall rev <- revs :: rev == S1)
      && Perform(r, Resolve("d", content, revs)).Ok?
    ensures var l := Shown(ids, steps);
      Shown(ids, more) == l.(client := Perform(l.client, Resolve("d", content, revs)).value)
  {
    hide Run, Perform;
    more := steps + [Step.Local("c", Resolve("d", content, revs))];
    var r := Shown(ids, steps).client;
    assert r.docs["d"] in Held(r, "d");
    assert Nameable(r, Resolve("d", content, revs));
    RunOfClientAction(Begin(ids), steps, "c", Resolve("d", content, revs));
  }

  // ---------- the sync in which the delivery is refused ----------

  lemma NeitherCovers()
    ensures !Covers(S2, S1C1) && !Covers(S1C1, S2) && !Newer(S2, S1C1) && !Newer(S1C1, S2) && S2 != S1C1
  {
    assert "c" in S1C1.Keys && "c" !in S2;
    assert "s" in S2.Keys && S2["s"] > S1C1["s"];
  }

  function SendingD(ids: nat -> string): Session {
    NO_SESSION.(phase := Sending, startGen := 2, changes := [Change("d", 2, ids(2))])
  }

  /** Start, send, insert, record: the server keeps its own version. */
  lemma UploadIsRefused(ids: nat -> string)
    ensures var l := Ready(ids);
      RecordStep(InsertStep(SendStep(StartStep(l)))) ==
        l.(server := SetKnown(l.server, "c", SyncPoint(2, ids(2))),
           session := SendingD(ids).(sent := [Version(S1C1, THIRD)], outcomes := [ConflictFound]))
  {
    var l := Ready(ids);
    OneNewChange(l.client.log);
    hide ChangesUpTo, Newer, Covers;
    NeitherCovers();
    assert StartStep(l) == l.(session := SendingD(ids));
    assert SendStep(StartStep(l)) == l.(session := SendingD(ids).(sent := [Version(S1C1, THIRD)]));
    assert Merge(l.server, "d", Version(S1C1, THIRD), false) == Ok(Taken(ConflictFound, l.server));
  }

  lemma LastRowsOfReady(ids: nat -> string)
    ensures var log := Ready(ids).server.log;
      Changes(log, 1) == [Change("d", 2, ids(2)), Change("e", 3, ids(3))]
      && LastGen(log, "d") == 2
      && ToReturn(Changes(log, 1), map[]) == Changes(log, 1)
  {
    var log := Ready(ids).server.log;
    assert log[..2][..1] == [log[0]];
    assert LastGen(log[..2], "d") == 2;
    assert LastGen(log, "d") == 2;
    LastRowIsLast(log);
    hide LastGen, ChangesUpTo, ToReturn;
    NoChangeYet(log, 1);
    OneChangeMore(log, 1, 1);
    OneChangeMore(log, 1, 2);
    AllAreReturned(Changes(log, 1));
  }

  /** The row of the first resolution stays, so there is no place for the replaced version. */
  lemma DeliveryIsRefused(ids: nat -> string)
    ensures var r, v := ClientResolved(ids), Version(S2, FIRST);
      && Prune("c", v, ConflictsOf(r, "d")).kept == [Version(S1C1, SECOND)]
      && Refuses(r, "d", v)
      && Refuse(r, "d", v) == r
  {
    var v, row := Version(S2, FIRST), Version(S1C1, SECOND);
    NeitherCovers();
    hide Newer, Covers, WithConflicts;
    ScanOfConcat(v, [], row);
    assert [] + [row] == [row] && [row][..0] == [];
    assert ScanAll(v, [row]).toPrune == {};
    assert Without([row], {}) == [row];
    hide ScanAll, Without;
    assert ConflictsOf(ClientResolved(ids), "d") == [row];
    assert row in [row] && row.rev == S1C1;
    SameRow(ids);
  }

  lemma SameRow(ids: nat -> string)
    ensures WithConflicts(ClientResolved(ids).conflicts, "d", [Version(S1C1, SECOND)]) == ClientResolved(ids).conflicts
  {}

  function ReceivingBoth(ids: nat -> string): Session {
    SendingD(ids).(phase := Receiving, sent := [Version(S1C1, THIRD)], outcomes := [ConflictFound],
                  newPoint := SyncPoint(3, ids(3)),
                  toReturn := [Change("d", 2, ids(2)), Change("e", 3, ids(3))])
  }

  lemma SearchFindsBoth(ids: nat -> string)
    ensures var l := Ready(ids);
      FindStep(RecordStep(InsertStep(SendStep(StartStep(l))))) ==
        l.(server := SetKnown(l.server, "c", SyncPoint(2, ids(2))), session := ReceivingBoth(ids))
  {
    UploadIsRefused(ids);
    LastRowsOfReady(ids);
    hide RecordStep, InsertStep, SendStep, StartStep, ChangesUpTo, ToReturn, LastGen;
  }

  /** The first delivery is refused; the second one is made all the same. */
  lemma SecondIsDelivered(ids: nat -> string, server: Replica)
    requires server == SetKnown(Ready(ids).server, "c", SyncPoint(2, ids(2)))
    ensures var l := Link(server, ClientResolved(ids), ReceivingBoth(ids), {});
      var n := DeliverStep(ReturnStep(DeliverStep(ReturnStep(l))));
      && n == Link(server, n.client, n.session, {"d"})
      && n.client.docs == ClientResolved(ids).docs["e" := Version(S1, FIRST)]
      && n.client.log == ClientResolved(ids).log + [Entry("e", ids(3))] && n.client.uid == "c"
      && n.session.phase == Receiving && n.session.delivered == 2 && |n.session.toReturn| == 2
      && n.session.newPoint == SyncPoint(3, ids(3))
  {
    var l := Link(server, ClientResolved(ids), ReceivingBoth(ids), {});
    DeliveryIsRefused(ids);
    MergeFailsExactlyWhen(l.client, "d", Version(S2, FIRST), true);
    hide Merge, Refuses, Refuse, Prune;
    var refused := DeliverStep(ReturnStep(l));
    assert refused == Link(server, ClientResolved(ids),
      ReceivingBoth(ids).(returned := [Version(S2, FIRST)], delivered := 1), {"d"});
    hide PutDocIfNewer;
    NewDocIsTaken(refused.client, "e", Version(S1, FIRST), "s", SyncPoint(3, ids(3)));
    assert ReturnStep(refused).session.returned == [Version(S2, FIRST), Version(S1, FIRST)];
  }

  const SECOND_SYNC :=
    [SyncStep.Start, Send, Insert] + [Record, Find, SyncStep.Return] + [Deliver, SyncStep.Return, Deliver] + [Complete]

  lemma SecondSyncSteps(l: Link)
    ensures AdvanceAll(l, SECOND_SYNC) == CompleteStep(DeliverStep(ReturnStep(DeliverStep(ReturnStep(
      FindStep(RecordStep(InsertStep(SendStep(StartStep(l))))))))))
  {
    hide AdvanceAll, StartStep, SendStep, InsertStep, RecordStep, FindStep, ReturnStep, DeliverStep, CompleteStep;
    var a, b, c := [SyncStep.Start, Send, Insert], [Record, Find, SyncStep.Return], [Deliver, SyncStep.Return, Deliver];
    AdvanceAllAppend(l, a + b + c, [Complete]);
    AdvanceAllAppend(l, a + b, c);
    AdvanceAllAppend(l, a, b);
    AdvanceThree(l, SyncStep.Start, Send, Insert);
    AdvanceThree(AdvanceAll(l, a), Record, Find, SyncStep.Return);
    AdvanceThree(AdvanceAll(l, a + b), Deliver, SyncStep.Return, Deliver);
    AdvanceOne(AdvanceAll(l, a + b + c), Complete);
  }

  lemma SecondSync(ids: nat -> string)
    ensures var n := AdvanceAll(Ready(ids), SECOND_SYNC);
      && n.session.phase == Finished && n.skipped == {"d"}
      && n.server.log == Ready(ids).server.log && Known(n).gen == 3
      && n.client.log == Ready(ids).client.log + [Entry("e", ids(3))] && KnownByServer(n).gen == 2
      && "d" in n.client.docs && "d" in n.server.docs
      && n.client.docs["d"].content == THIRD && n.server.docs["d"].content == FIRST
  {
    SecondSyncSteps(Ready(ids));
    SearchFindsBoth(ids);
    hide AdvanceAll, SECOND_SYNC, StartStep, SendStep, InsertStep, RecordStep, FindStep;
    var l := Ready(ids);
    var server := SetKnown(l.server, "c", SyncPoint(2, ids(2)));
    SecondIsDelivered(ids, server);
    hide ReturnStep, DeliverStep;
  }

  lemma LastOfClient(ids: nat -> string)
    ensures LastGen(Ready(ids).client.log + [Entry("e", ids(3))], "d") == 2
  {
    LastRowIsLast(Ready(ids).client.log);
    LastGenAppend(Ready(ids).client.log, Entry("e", ids(3)), "d");
  }

  /**
   * The refused document is reachable: a whole sync has completed, the recorded generation is that of
   * the server's last row, the two sides have different contents of "d", and neither of them lists it.
   */
  lemma ARefusedDeliveryIsNotMadeUpFor(ids: nat -> string) returns (start: Star, steps: seq<Step>)
    ensures Initial(start) && "c" in start.clients
    ensures var l := LinkOf(Run(start, steps), "c");
      && l.session.phase == Finished
      && Known(l).gen == |l.server.log|
      && !Agree(l, "d")
      && !Lists(Changes(l.client.log, KnownByServer(l).gen), "d")
      && !Lists(Changes(l.server.log, Known(l).gen), "d")
  {
    hide Run, AdvanceAll, SECOND_SYNC, Lists, Changes, LastGen;
    start := Begin(ids);
    BeginIsInitial(ids);
    var ready := GetReady(ids);
    steps := ready + Syncs("c", SECOND_SYNC);
    RunOfSyncs(start, ready, "c", SECOND_SYNC);
    SecondSync(ids);
    LastRowsOfReady(ids);
    LastOfClient(ids);
    var l := LinkOf(Run(start, steps), "c");
    ListedExactlyIfChanged(l.client.log, KnownByServer(l).gen, "d");
    ListedExactlyIfChanged(l.server.log, Known(l).gen, "d");
  }
}
