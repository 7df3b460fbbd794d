/** Helpers for runs that are given step by step: one server "s", one client "c", nothing written yet. */
module ConcreteRuns {
  import opened ChangeLog
  import opened Documents
  import opened LinkClient
  import opened Links
  import opened Replicas
  import opened Star
  import opened VectorClocks
  import opened Wrappers

  const FIRST: Content := Some(Integer(1))
  const SECOND: Content := Some(Integer(2))
  const THIRD: Content := Some(Integer(3))

  function Empty(uid: string, ids: nat -> string): Replica {
    Replica(uid, ids, map[], map[], [], map[])
  }

  function Begin(ids: nat -> string): Star {
    Star(Empty("s", ids), map["c" := Empty("c", ids)], map["c" := NO_SESSION], map["c" := {}])
  }

  lemma BeginIsInitial(ids: nat -> string)
    ensures Initial(Begin(ids)) && WellFormed(Begin(ids)) && Begin(ids).clients.Keys == {"c"}
  {}

  // ---------- runs, seen from one link ----------

  ghost function AdvanceAll(l: Link, steps: seq<SyncStep>): Link {
    if steps == [] then l else Advance(AdvanceAll(l, steps[..|steps| - 1]), steps[|steps| - 1])
  }

  lemma {:induction false} AdvanceAllAppend(l: Link, a: seq<SyncStep>, b: seq<SyncStep>)
    ensures AdvanceAll(l, a + b) == AdvanceAll(AdvanceAll(l, a), b)
  {
    hide Advance;
    if b == [] {
      assert a + b == a;
    } else {
      AdvanceAllAppend(l, a, b[..|b| - 1]);
      assert (a + b)[..|a + b| - 1] == a + b[..|b| - 1];
    }
  }

  lemma AdvanceOne(l: Link, a: SyncStep)
    ensures AdvanceAll(l, [a]) == Advance(l, a)
  {
    hide Advance;
    assert [a][..0] == [];
  }

  lemma AdvanceThree(l: Link, a: SyncStep, b: SyncStep, c: SyncStep)
    ensures AdvanceAll(l, [a, b, c]) == Advance(Advance(Advance(l, a), b), c)
  {
    hide Advance;
    assert [a, b, c] == [a] + [b] + [c];
    AdvanceAllAppend(l, [a] + [b], [c]);
    AdvanceAllAppend(l, [a], [b]);
    AdvanceOne(l, a);
    AdvanceOne(Advance(l, a), b);
    AdvanceOne(Advance(Advance(l, a), b), c);
    hide AdvanceAll;
  }

  ghost function Syncs(uid: string, steps: seq<SyncStep>): seq<Step> {
    if steps == [] then [] else Syncs(uid, steps[..|steps| - 1]) + [Sync(uid, steps[|steps| - 1])]
  }

  lemma RunStep(st: Star, steps: seq<Step>, step: Step)
    requires WellFormed(st)
    ensures Run(st, steps + [step]) == Apply(Run(st, steps), step)
  {
    assert (steps + [step])[..|steps|] == steps;
  }

  lemma {:induction false} RunOfSyncs(start: Star, steps: seq<Step>, uid: string, syncs: seq<SyncStep>)
    requires WellFormed(start) && uid in start.clients
    ensures LinkOf(Run(start, steps + Syncs(uid, syncs)), uid) == AdvanceAll(LinkOf(Run(start, steps), uid), syncs)
  {
    hide Run, Advance;
    if syncs == [] {
      assert steps + Syncs(uid, syncs) == steps;
    } else {
      var init, last := syncs[..|syncs| - 1], syncs[|syncs| - 1];
      RunOfSyncs(start, steps, uid, init);
      assert steps + Syncs(uid, syncs) == (steps + Syncs(uid, init)) + [Sync(uid, last)];
      RunStep(start, steps + Syncs(uid, init), Sync(uid, last));
    }
  }

  lemma RunOfClientAction(start: Star, steps: seq<Step>, uid: string, a: LocalAction)
    requires WellFormed(start) && uid in start.clients
    requires var r := Run(start, steps).clients[uid]; Nameable(r, a) && Perform(r, a).Ok?
    ensures var l := LinkOf(Run(start, steps), uid);
      LinkOf(Run(start, steps + [Step.Local(uid, a)]), uid) == l.(client := Perform(l.client, a).value)
  {
    hide Run, Perform, Nameable;
    RunStep(start, steps, Step.Local(uid, a));
  }

  lemma ServerActionApplies(st: Star, uid: string, a: LocalAction)
    requires WellFormed(st) && uid in st.clients && !a.Resolve? && Perform(st.server, a).Ok?
    ensures var n := Apply(st, Step.Local(st.server.uid, a));
      uid in n.clients && uid in n.sessions && uid in n.skipped
      && LinkOf(n, uid) == LinkOf(st, uid).(server := Perform(st.server, a).value)
  {
    hide Perform, Nameable;
  }

  lemma RunOfServerAction(start: Star, steps: seq<Step>, uid: string, a: LocalAction)
    requires WellFormed(start) && uid in start.clients && !a.Resolve?
    requires Perform(Run(start, steps).server, a).Ok?
    ensures var l := LinkOf(Run(start, steps), uid);
      LinkOf(Run(start, steps + [Step.Local(start.server.uid, a)]), uid) == l.(server := Perform(l.server, a).value)
  {
    hide Run, Perform, Apply;
    RunStep(start, steps, Step.Local(start.server.uid, a));
    ServerActionApplies(Run(start, steps), uid, a);
  }

  // ---------- short logs ----------

  lemma OneChangeMore(log: seq<Entry>, since: nat, k: nat)
    requires since <= k < |log|
    ensures ChangesUpTo(log, since, k + 1) == ChangesUpTo(log, since, k)
      + if LastGen(log, log[k].docId) == k + 1 then [Change(log[k].docId, k + 1, log[k].transId)] else []
  {}

  lemma NoChangeYet(log: seq<Entry>, since: nat)
    requires since <= |log|
    ensures ChangesUpTo(log, since, since) == []
  {}

  lemma LastRowIsLast(log: seq<Entry>)
    requires log != []
    ensures LastGen(log, log[|log| - 1].docId) == |log|
  {}

  /** The only row since then. */
  lemma OneNewChange(log: seq<Entry>)
    requires log != []
    ensures var k := |log| - 1; Changes(log, k) == [Change(log[k].docId, |log|, log[k].transId)]
  {
    hide LastGen, ChangesUpTo;
    var k := |log| - 1;
    NoChangeYet(log, k);
    OneChangeMore(log, k, k);
    LastRowIsLast(log);
  }

  /** Nothing seen, nothing left out. */
  lemma {:induction false} AllAreReturned(cs: seq<Change>)
    ensures ToReturn(cs, map[]) == cs
  {
    if cs != [] {
      AllAreReturned(cs[..|cs| - 1]);
      assert cs[..|cs| - 1] + [cs[|cs| - 1]] == cs;
    }
  }

  // ---------- puts at the server ----------

  lemma PutSucceeds(r: Replica, d: string, rev: Option<Clock>, n: nat, content: Content)
    requires r.uid == "s" && r.conflicts == map[]
    requires d == "d" || d == "e"
    requires if d in r.docs then rev == Some(r.docs[d].rev) && r.docs[d].content != None else rev == None
    requires (if rev == None then ZERO else rev.value) == if n == 0 then map[] else map["s" := n]
    ensures Perform(r, Put(d, rev, content)) == Ok(Store(r, d, Version(map["s" := n + 1], content)))
  {
    assert ValidDocId("d") && ValidDocId("e");
    assert Increment(if n == 0 then map[] else map["s" := n], "s") == map["s" := n + 1];
  }

  /** What the client's link shows after some steps. */
  ghost function Shown(ids: nat -> string, steps: seq<Step>): (l: Link)
    ensures l.server.uid == "s" && l.client.uid == "c"
  {
    LinkOf(Run(Begin(ids), steps), "c")
  }

  lemma NothingShown(ids: nat -> string)
    ensures Shown(ids, []) == Link(Empty("s", ids), Empty("c", ids), NO_SESSION, {})
  {}

  /** One more put at the server. */
  lemma PutAtServer(ids: nat -> string, steps: seq<Step>, d: string, rev: Option<Clock>, n: nat, content: Content)
    returns (more: seq<Step>)
    requires var r := Shown(ids, steps).server;
      && r.conflicts == map[]
      && (d == "d" || d == "e")
      && (if d in r.docs then rev == Some(r.docs[d].rev) && r.docs[d].content != None else rev == None)
    requires (if rev == None then ZERO else rev.value) == if n == 0 then map[] else map["s" := n]
    ensures var l := Shown(ids, steps);
      Shown(ids, more) == l.(server := Store(l.server, d, Version(map["s" := n + 1], content)))
  {
    hide Perform, Run, Store;
    more := steps + [Step.Local("s", Put(d, rev, content))];
    PutSucceeds(Run(Begin(ids), steps).server, d, rev, n, content);
    RunOfServerAction(Begin(ids), steps, "c", Put(d, rev, content));
  }

  /** Nothing held yet: any version with a counter is taken as it is. */
  lemma NewDocIsTaken(r: Replica, d: string, v: Version, source: string, p: SyncPoint)
    requires d !in r.docs && ConflictsOf(r, d) == [] && v.rev != ZERO
    requires KnownOf(r, source).gen < p.gen
    ensures PutDocIfNewer(r, d, v, true, source, p) == Ok(Taken(Inserted, SetKnown(Store(r, d, v), source, p)))
  {
    assert Newer(v.rev, ZERO);
  }

  // ---------- a sync of one document that both sides changed ----------

  /** Each side has logged one thing more than the other knows, the same document, in conflict. */
  ghost predicate Conflicting(l: Link, d: string) {
    var s, c := l.server, l.client;
    && l.session == NO_SESSION
    && s.log != [] && s.log[|s.log| - 1].docId == d && Known(l).gen == |s.log| - 1
    && c.log != [] && c.log[|c.log| - 1].docId == d && KnownByServer(l).gen == |c.log| - 1
    && d in s.docs && d in c.docs
    && !Covers(s.docs[d].rev, c.docs[d].rev) && !Covers(c.docs[d].rev, s.docs[d].rev)
    && s.docs[d].content != c.docs[d].content
  }

  function LastChange(r: Replica): Change
    requires r.log != []
  {
    Change(r.log[|r.log| - 1].docId, |r.log|, r.log[|r.log| - 1].transId)
  }

  function Sent(c: Replica, d: string): Session
    requires c.log != [] && d in c.docs
  {
    NO_SESSION.(phase := Sending, startGen := |c.log|, changes := [LastChange(c)], sent := [c.docs[d]],
                outcomes := [ConflictFound])
  }

  lemma ConflictIsAnswered(r: Replica, d: string, v: Version)
    requires d in r.docs && r.docs[d].content != v.content
    requires !Covers(r.docs[d].rev, v.rev) && !Covers(v.rev, r.docs[d].rev)
    ensures Merge(r, d, v, false) == Ok(Taken(ConflictFound, r))
  {
    assert r.docs[d].rev == v.rev ==> Covers(v.rev, v.rev);
  }

  /** Start, send, insert, record: the server keeps its own version. */
  lemma UploadInConflict(l: Link, d: string)
    requires Conflicting(l, d)
    ensures RecordStep(InsertStep(SendStep(StartStep(l)))) ==
      l.(server := SetKnown(l.server, l.client.uid, PointOf(LastChange(l.client))), session := Sent(l.client, d))
  {
    hide Changes, Covers, Merge;
    OneNewChange(l.client.log);
    var started := NO_SESSION.(phase := Sending, startGen := |l.client.log|, changes := [LastChange(l.client)]);
    assert StartStep(l) == l.(session := started);
    assert SendStep(StartStep(l)) == l.(session := started.(sent := [l.client.docs[d]]));
    ConflictIsAnswered(l.server, d, l.client.docs[d]);
  }

  /** What is found is that one document, and it is read. */
  lemma OneIsReturned(l: Link, d: string)
    requires l.session.phase == Sending && |l.session.outcomes| == |l.session.changes| && l.session.seenIds == map[]
    requires l.session.returned == []
    requires l.server.log != [] && l.server.log[|l.server.log| - 1].docId == d
    requires Known(l).gen == |l.server.log| - 1 && d in l.server.docs
    ensures ReturnStep(FindStep(l)) == l.(session := l.session.(
      phase := Receiving, newPoint := Tip(l.server.log), toReturn := [LastChange(l.server)],
      returned := [l.server.docs[d]]))
  {
    hide Changes, ToReturn;
    OneNewChange(l.server.log);
    AllAreReturned([LastChange(l.server)]);
  }

  function Delivering(l: Link, d: string): Session
    requires l.client.log != [] && l.server.log != [] && d in l.client.docs && d in l.server.docs
  {
    Sent(l.client, d).(phase := Receiving, newPoint := Tip(l.server.log), toReturn := [LastChange(l.server)],
                       returned := [l.server.docs[d]])
  }

  lemma ConflictIsReturned(l: Link, d: string)
    requires Conflicting(l, d)
    ensures ReturnStep(FindStep(RecordStep(InsertStep(SendStep(StartStep(l)))))) ==
      l.(server := SetKnown(l.server, l.client.uid, PointOf(LastChange(l.client))), session := Delivering(l, d))
  {
    hide StartStep, SendStep, InsertStep, RecordStep, Covers;
    UploadInConflict(l, d);
    hide FindStep, ReturnStep;
    OneIsReturned(RecordStep(InsertStep(SendStep(StartStep(l)))), d);
  }

  const ONE_DOC_SYNC := [SyncStep.Start, Send, Insert] + [Record, Find, SyncStep.Return]

  lemma OneDocSync(l: Link, d: string)
    requires Conflicting(l, d)
    ensures AdvanceAll(l, ONE_DOC_SYNC) ==
      l.(server := SetKnown(l.server, l.client.uid, PointOf(LastChange(l.client))), session := Delivering(l, d))
  {
    hide AdvanceAll, StartStep, SendStep, InsertStep, RecordStep, FindStep, ReturnStep;
    ConflictIsReturned(l, d);
    var a, b := [SyncStep.Start, Send, Insert], [Record, Find, SyncStep.Return];
    AdvanceAllAppend(l, a, b);
    AdvanceThree(l, SyncStep.Start, Send, Insert);
    AdvanceThree(AdvanceAll(l, a), Record, Find, SyncStep.Return);
  }
}
