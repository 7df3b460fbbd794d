/** A concrete run in which an abandoned session leaves a recorded generation that skips a version. */
module Skipping {
  import opened ChangeLog
  import opened ConcreteRuns
  import opened Documents
  import opened Links
  import opened Replicas
  import opened Star
  import opened VectorClocks
  import opened Wrappers

  const ONE: Clock := map["s" := 1]

  /** A client that has nothing, and a server that logged "d", "e" and "d" again. */
  ghost predicate Staged(l: Link) {
    && l.session == NO_SESSION && l.client.docs == map[] && l.client.log == []
    && l.server.uid == "s" && l.client.conflicts == map[] && l.client.known == map[] && l.server.known == map[]
    && |l.server.log| == 3 && l.server.log[0].docId == "d"
    && l.server.log[1].docId == "e" && l.server.log[2].docId == "d"
    && "e" in l.server.docs && l.server.docs["e"] == Version(ONE, FIRST)
  }

  /** Put "d", put "e", put "d" again, at the server. */
  lemma ThreePuts(ids: nat -> string) returns (steps: seq<Step>)
    ensures Staged(Shown(ids, steps))
  {
    hide Shown, Staged, Increment;
    NothingShown(ids);
    var first := PutAtServer(ids, [], "d", None, 0, FIRST);
    var second := PutAtServer(ids, first, "e", None, 0, FIRST);
    steps := PutAtServer(ids, second, "d", Some(ONE), 1, SECOND);
    ThreeStored(ids);
  }

  lemma ThreeStored(ids: nat -> string)
    ensures var one := Store(Empty("s", ids), "d", Version(ONE, FIRST));
      var two := Store(one, "e", Version(ONE, FIRST));
      Staged(Link(Store(two, "d", Version(map["s" := 2], SECOND)), Empty("c", ids), NO_SESSION, {}))
  {}

  lemma LastOfThree(log: seq<Entry>)
    requires |log| == 3 && log[0].docId == "d" && log[1].docId == "e" && log[2].docId == "d"
    ensures LastGen(log, "d") == 3 && LastGen(log, "e") == 2
  {}

  lemma ThreeChanges(log: seq<Entry>, e: Entry)
    requires |log| == 3 && log[0].docId == "d" && log[1] == e && e.docId == "e" && log[2].docId == "d"
    ensures Changes(log, 0) == [Change("e", 2, e.transId), Change("d", 3, log[2].transId)]
    ensures ToReturn(Changes(log, 0), map[]) == Changes(log, 0)
  {
    LastOfThree(log);
    hide LastGen, ToReturn, ChangesUpTo;
    NoChangeYet(log, 0);
    OneChangeMore(log, 0, 0);
    OneChangeMore(log, 0, 1);
    OneChangeMore(log, 0, 2);
    AllAreReturned(Changes(log, 0));
  }

  lemma FirstStart(l: Link)
    requires Staged(l)
    ensures StartStep(l) == l.(session := NO_SESSION.(phase := Sending))
  {
    assert Changes(l.client.log, 0) == [];
  }

  lemma FirstFind(l: Link)
    requires Staged(l.(session := NO_SESSION)) && l.session == NO_SESSION.(phase := Sending)
    ensures var n := FindStep(l);
      && n.server == l.server && n.client == l.client
      && n.session == l.session.(phase := Receiving, newPoint := Tip(l.server.log), toReturn := n.session.toReturn)
      && |n.session.toReturn| == 2 && n.session.toReturn[0] == Change("e", 2, l.server.log[1].transId)
  {
    ThreeChanges(l.server.log, l.server.log[1]);
    hide ChangesUpTo, ToReturn;
  }

  lemma FirstReturn(l: Link)
    requires Staged(l)
    ensures var n := ReturnStep(FindStep(StartStep(l)));
      && n.server == l.server && n.client == l.client
      && n.session.phase == Receiving && n.session.delivered == 0
      && |n.session.toReturn| == 2 && n.session.toReturn[0] == Change("e", 2, l.server.log[1].transId)
      && n.session.returned == [l.server.docs["e"]]
  {
    FirstStart(l);
    FirstFind(StartStep(l));
    hide StartStep, FindStep;
  }

  /** From there the client starts a session and takes in the first of the two returned documents. */
  lemma FirstDelivery(l: Link)
    requires Staged(l)
    ensures var n := DeliverStep(ReturnStep(FindStep(StartStep(l))));
      && |n.server.log| == 3 && n.server.log[0].docId == "d"
      && Known(n).gen == 2 && "d" !in n.client.docs
  {
    var returned := ReturnStep(FindStep(StartStep(l)));
    FirstReturn(l);
    hide StartStep, FindStep, ReturnStep;
    assert "s" in ONE;
    var c := returned.session.toReturn[0];
    NewDocIsTaken(l.client, "e", l.server.docs["e"], "s", PointOf(c));
    hide PutDocIfNewer;
  }

  /**
   * "Every version logged up to the recorded generation is at the client" fails in a reachable
   * state: generation 2 is recorded, yet the document logged at generation 1 is not there at all.
   */
  lemma ARecordedGenerationCanSkipAVersion(ids: nat -> string) returns (start: Star, steps: seq<Step>)
    ensures Initial(start) && "c" in start.clients
    ensures var st := Run(start, steps);
      && Known(LinkOf(st, "c")).gen == 2
      && |st.server.log| == 3
      && st.server.log[0].docId == "d" && "d" !in st.clients["c"].docs
  {
    hide Run, Staged, StartStep, FindStep, ReturnStep, DeliverStep;
    start := Begin(ids);
    BeginIsInitial(ids);
    var puts := ThreePuts(ids);
    var sync := [SyncStep.Start, Find, SyncStep.Return, Deliver];
    steps := puts + Syncs("c", sync);
    RunOfSyncs(start, puts, "c", sync);
    FourSteps(Shown(ids, puts));
    FirstDelivery(Shown(ids, puts));
  }

  lemma FourSteps(l: Link)
    ensures AdvanceAll(l, [SyncStep.Start, Find, SyncStep.Return, Deliver]) ==
      DeliverStep(ReturnStep(FindStep(StartStep(l))))
  {
    hide AdvanceAll, StartStep, FindStep, ReturnStep, DeliverStep;
    var begin := [SyncStep.Start, Find, SyncStep.Return];
    assert [SyncStep.Start, Find, SyncStep.Return, Deliver] == begin + [Deliver];
    AdvanceAllAppend(l, begin, [Deliver]);
    AdvanceThree(l, SyncStep.Start, Find, SyncStep.Return);
    AdvanceOne(AdvanceAll(l, begin), Deliver);
  }
}
