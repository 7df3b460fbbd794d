/** Which runs of operations on a replica lose no version: all but those with one kind of refusal. */
module Preservation {
  import opened ChangeLog
  import opened Documents
  import opened Pruning
  import opened Replicas
  import opened VectorClocks
  import opened Wrappers

  datatype Action =
    | Local(action: LocalAction)
    | Take(docId: string, version: Version, saveConflict: bool, source: string, point: SyncPoint)

  /** A local operation that raises leaves the replica as it was; taking in a version may not. */
  function Act(r: Replica, a: Action): Replica {
    match a
    case Local(action) =>
      var s := Perform(r, action);
      if s.Ok? then s.value else r
    case Take(d, v, saveConflict, source, point) =>
      AfterPut(r, d, v, saveConflict, source, point)
  }

  function After(r: Replica, actions: seq<Action>): Replica {
    if actions == [] then r else Act(After(r, actions[..|actions| - 1]), actions[|actions| - 1])
  }

  /**
   * A conflict goes, and none that stays is newer. When the insertion that was to supersede it is
   * refused, it is gone for good. A caller can tell beforehand, from the conflicts and the version
   * to come.
   */
  ghost predicate DropsAConflict(r: Replica, docId: string, v: Version) {
    var cs := ConflictsOf(r, docId);
    exists c <- cs :: RevGoes(v, cs, c.rev) && forall k <- cs :: Newer(k.rev, c.rev) ==> RevGoes(v, cs, k.rev)
  }

  /** The actions that lose a version. */
  ghost predicate Loses(r: Replica, a: Action) {
    && a.Take? && a.saveConflict
    && ValidateSource(r, a.source, a.point).None?
    && Refuses(r, a.docId, a.version)
    && DropsAConflict(r, a.docId, a.version)
  }

  lemma NothingLostByIdentity(r: Replica, s: Replica)
    requires r.docs == s.docs && r.conflicts == s.conflicts
    ensures NothingLost(r, s)
  {
    forall d, v | v in Held(r, d) ensures Survives(v, Held(s, d)) {
      assert Held(r, d) == Held(s, d);
    }
  }

  /** Storing a newer version over the current one, with the conflicts as they are. */
  lemma StoreLosesNothing(r: Replica, docId: string, v: Version)
    requires docId in r.docs ==> Newer(v.rev, r.docs[docId].rev)
    ensures NothingLost(r, Store(r, docId, v))
  {
    var s := Store(r, docId, v);
    assert v in Held(s, docId);
    assert ConflictsOf(s, docId) == ConflictsOf(r, docId);
    OnlyTouches(r, s, docId);
  }

  lemma PutLosesNothing(r: Replica, docId: string, rev: Option<Clock>, content: Content)
    requires PutDoc(r, docId, rev, content).Ok?
    ensures NothingLost(r, PutDoc(r, docId, rev, content).value)
  {
    var s := PutDoc(r, docId, rev, content).value;
    if docId in r.docs {
      IncrementIsNewer(r.docs[docId].rev, r.uid);
    }
    StoreLosesNothing(r, docId, s.docs[docId]);
  }

  lemma DeleteLosesNothing(r: Replica, docId: string, rev: Option<Clock>)
    requires DeleteDoc(r, docId, rev).Ok?
    ensures NothingLost(r, DeleteDoc(r, docId, rev).value)
  {
    IncrementIsNewer(r.docs[docId].rev, r.uid);
    StoreLosesNothing(r, docId, DeleteDoc(r, docId, rev).value.docs[docId]);
  }

  lemma ResolveHolds(r: Replica, docId: string, content: Content, revs: seq<Clock>)
    requires ResolveDoc(r, docId, content, revs).Ok?
    ensures var s, cur := ResolveDoc(r, docId, content, revs).value, r.docs[docId];
      && Version(MaximalRev(r.uid, cur.rev, revs), content) in Held(s, docId)
      && (forall v <- Held(r, docId) :: v.rev in revs || v in Held(s, docId))
  {
    var s, cur := ResolveDoc(r, docId, content, revs).value, r.docs[docId];
    var resolved := Version(MaximalRev(r.uid, cur.rev, revs), content);
    ResolutionIsNeverSuperseded(r.uid, cur.rev, revs);
    hide MaximalRev, Newer;
    if cur.rev !in revs {
      assert resolved in ConflictsOf(s, docId);
    }
    forall v <- Held(r, docId) ensures v.rev in revs || v in Held(s, docId) {
      if v in ConflictsOf(r, docId) && v.rev !in revs {
        assert v in ConflictsOf(s, docId);
      }
    }
  }

  lemma ResolveLosesNothing(r: Replica, docId: string, content: Content, revs: seq<Clock>)
    requires ResolveDoc(r, docId, content, revs).Ok?
    ensures NothingLost(r, ResolveDoc(r, docId, content, revs).value)
  {
    var s, cur := ResolveDoc(r, docId, content, revs).value, r.docs[docId];
    ResolveHolds(r, docId, content, revs);
    ResolveFrame(r, docId, content, revs);
    ResolutionIsNeverSuperseded(r.uid, cur.rev, revs);
    hide ResolveDoc, Held, MaximalRev, Newer;
    forall v <- Held(r, docId) ensures Survives(v, Held(s, docId)) {
      if v.rev in revs {
        assert Newer(MaximalRev(r.uid, cur.rev, revs), v.rev);
      }
    }
    OnlyTouches(r, s, docId);
  }

  lemma StoreNewerLosesNothing(r: Replica, docId: string, v: Version)
    requires docId in r.docs ==> Newer(v.rev, r.docs[docId].rev)
    ensures NothingLost(r, StoreNewer(r, docId, v).replica)
    ensures var cur := StoreNewer(r, docId, v).replica.docs[docId];
      cur.content == v.content && (cur == v || Newer(cur.rev, v.rev))
  {
    var p := Prune(r.uid, v, ConflictsOf(r, docId));
    var s := StoreNewer(r, docId, v).replica;
    PruneIsSafe(r.uid, v, ConflictsOf(r, docId));
    forall w <- Held(r, docId) ensures Survives(w, Held(s, docId)) {
      assert p.doc in Held(s, docId);
      if w !in ConflictsOf(r, docId) {
        NewerIsStrictOrder(p.doc.rev, v.rev, w.rev);
      } else if w in p.kept {
        assert w in ConflictsOf(s, docId);
      }
    }
    OnlyTouches(r, s, docId);
  }

  lemma ForceConflictLosesNothing(r: Replica, docId: string, v: Version)
    requires docId in r.docs && ForceConflict(r, docId, v).Ok?
    ensures NothingLost(r, ForceConflict(r, docId, v).value)
    ensures var cur := ForceConflict(r, docId, v).value.docs[docId];
      cur.content == v.content && (cur == v || Newer(cur.rev, v.rev))
  {
    var p := Prune(r.uid, v, ConflictsOf(r, docId));
    var s := ForceConflict(r, docId, v).value;
    PruneIsSafe(r.uid, v, ConflictsOf(r, docId));
    assert ConflictsOf(s, docId) == p.kept + [r.docs[docId]];
    forall w <- Held(r, docId) ensures Survives(w, Held(s, docId)) {
      assert p.doc in Held(s, docId);
      if w == r.docs[docId] || w in p.kept {
        assert w in ConflictsOf(s, docId);
      }
    }
    OnlyTouches(r, s, docId);
  }

  lemma MergeOfSameContent(r: Replica, docId: string, v: Version)
    requires docId in r.docs
    ensures var rev := Increment(Join(v.rev, r.docs[docId].rev), r.uid);
      Newer(rev, v.rev) && Newer(rev, r.docs[docId].rev)
  {
    var join := Join(v.rev, r.docs[docId].rev);
    JoinIsLeastUpperBound(v.rev, r.docs[docId].rev, join);
    IncrementIsNewer(join, r.uid);
    NewerIsStrictOrder(Increment(join, r.uid), join, v.rev);
    NewerIsStrictOrder(Increment(join, r.uid), join, r.docs[docId].rev);
  }

  /**
   * Taking in a version loses nothing, and with conflicts saved the version taken in is not
   * lost either: its revision, or a newer one, is current afterwards.
   */
  lemma MergeLosesNothing(r: Replica, docId: string, v: Version, saveConflict: bool)
    requires Merge(r, docId, v, saveConflict).Ok?
    ensures var t := Merge(r, docId, v, saveConflict).value;
      && NothingLost(r, t.replica)
      && (saveConflict || t.outcome != ConflictFound ==>
          docId in t.replica.docs && (t.replica.docs[docId].rev == v.rev || Newer(t.replica.docs[docId].rev, v.rev)))
  {
    var t := Merge(r, docId, v, saveConflict).value;
    var curRev := if docId in r.docs then r.docs[docId].rev else ZERO;
    if Newer(v.rev, curRev) {
      StoreNewerLosesNothing(r, docId, v);
    } else if v.rev == curRev || Newer(curRev, v.rev) {
      NothingLostByIdentity(r, r);
    } else if r.docs[docId].content == v.content {
      MergeOfSameContent(r, docId, v);
      StoreLosesNothing(r, docId, t.replica.docs[docId]);
    } else if saveConflict {
      ForceConflictLosesNothing(r, docId, v);
    } else {
      NothingLostByIdentity(r, r);
    }
  }

  lemma LocalActionLosesNothing(r: Replica, a: LocalAction)
    requires Perform(r, a).Ok?
    ensures NothingLost(r, Perform(r, a).value)
  {
    match a
    case Put(d, rev, content) => PutLosesNothing(r, d, rev, content);
    case Delete(d, rev) => DeleteLosesNothing(r, d, rev);
    case Resolve(d, content, revs) => ResolveLosesNothing(r, d, content, revs);
  }

  /** Whether an insertion is refused, told from the same things: the row with our revision stays. */
  lemma RefusesExactlyWhen(r: Replica, docId: string, v: Version)
    ensures Refuses(r, docId, v) <==>
      && docId in r.docs
      && var mine, cs := r.docs[docId], ConflictsOf(r, docId);
      && !Covers(v.rev, mine.rev) && !Covers(mine.rev, v.rev) && mine.content != v.content
      && mine.rev in Revs(cs) && !RevGoes(v, cs, mine.rev)
  {
    if docId in r.docs {
      KeptRevs(r.uid, v, ConflictsOf(r, docId), r.docs[docId].rev);
    }
    hide Covers, Prune, RevGoes, Revs;
  }

  lemma KeptRevs(uid: string, v: Version, cs: seq<Version>, rev: Clock)
    ensures rev in Revs(Prune(uid, v, cs).kept) <==> rev in Revs(cs) && !RevGoes(v, cs, rev)
  {
    hide Prune, RevGoes;
    forall c: Version ensures c in Prune(uid, v, cs).kept <==> c in cs && !RevGoes(v, cs, c.rev) {
      KeptExactlyWhen(uid, v, cs, c);
    }
    if rev in Revs(cs) && !RevGoes(v, cs, rev) {
      var c :| c in cs && c.rev == rev;
      assert c in Prune(uid, v, cs).kept;
    }
  }

  lemma HeldAfterRefusal(r: Replica, docId: string, v: Version, c: Version)
    requires docId in r.docs
    ensures var cs := ConflictsOf(r, docId);
      c in Held(Refuse(r, docId, v), docId) <==> c == r.docs[docId] || (c in cs && !RevGoes(v, cs, c.rev))
  {
    KeptExactlyWhen(r.uid, v, ConflictsOf(r, docId), c);
    hide Prune, RevGoes, WithConflicts;
    assert ConflictsOf(Refuse(r, docId, v), docId) == Prune(r.uid, v, ConflictsOf(r, docId)).kept;
  }

  /** One conflict survives the refusal unless it goes and nothing newer stays. */
  lemma SurvivesRefusalExactlyWhen(r: Replica, docId: string, v: Version, c: Version)
    requires Refuses(r, docId, v) && c in ConflictsOf(r, docId)
    ensures var cs := ConflictsOf(r, docId);
      Survives(c, Held(Refuse(r, docId, v), docId)) <==>
        !RevGoes(v, cs, c.rev) || exists k <- cs :: Newer(k.rev, c.rev) && !RevGoes(v, cs, k.rev)
  {
    RefusesExactlyWhen(r, docId, v);
    hide Refuses, RevGoes, Newer, Covers, Held, Refuse;
    var mine, cs, held := r.docs[docId], ConflictsOf(r, docId), Held(Refuse(r, docId, v), docId);
    forall x ensures x in held <==> x == mine || (x in cs && !RevGoes(v, cs, x.rev)) {
      HeldAfterRefusal(r, docId, v, x);
    }
    var twin :| twin in cs && twin.rev == mine.rev;
    assert twin in held;
  }

  lemma RefusalLosesExactlyWhen(r: Replica, docId: string, v: Version)
    requires Refuses(r, docId, v)
    ensures NothingLost(r, Refuse(r, docId, v)) <==> !DropsAConflict(r, docId, v)
  {
    var s, cs := Refuse(r, docId, v), ConflictsOf(r, docId);
    RefusedIsThere(r, docId, v);
    assert s.docs == r.docs && s.conflicts - {docId} == r.conflicts - {docId};
    hide Refuses, Refuse, RevGoes, Newer, Survives;
    forall c <- cs
      ensures Survives(c, Held(s, docId)) <==>
        !RevGoes(v, cs, c.rev) || exists k <- cs :: Newer(k.rev, c.rev) && !RevGoes(v, cs, k.rev)
    {
      SurvivesRefusalExactlyWhen(r, docId, v, c);
    }
    if DropsAConflict(r, docId, v) {
      var c :| c in cs && RevGoes(v, cs, c.rev) && forall k <- cs :: Newer(k.rev, c.rev) ==> RevGoes(v, cs, k.rev);
      assert c in Held(r, docId) && !Survives(c, Held(s, docId));
    } else {
      forall w <- Held(r, docId) ensures Survives(w, Held(s, docId)) {
        if w !in cs {
          HeldSurvives(w, Held(s, docId));
        }
      }
      OnlyTouches(r, s, docId);
    }
  }

  lemma HeldSurvives(v: Version, held: set<Version>)
    requires v in held
    ensures Survives(v, held)
  {}

  lemma RefusedIsThere(r: Replica, docId: string, v: Version)
    requires Refuses(r, docId, v)
    ensures docId in r.docs
  {}

  lemma TakeLosesExactlyWhen(r: Replica, a: Action)
    requires a.Take?
    ensures NothingLost(r, Act(r, a)) <==> !Loses(r, a)
  {
    hide Merge, Refuses, DropsAConflict, Refuse;
    var d, v := a.docId, a.version;
    MergeFailsExactlyWhen(r, d, v, a.saveConflict);
    NothingLostByIdentity(r, r);
    var m := Merge(r, d, v, a.saveConflict);
    if ValidateSource(r, a.source, a.point).None? {
      if m.Ok? {
        MergeLosesNothing(r, d, v, a.saveConflict);
        NothingLostByIdentity(m.value.replica, Act(r, a));
        NothingLostTransitive(r, m.value.replica, Act(r, a));
      } else if m.error == IntegrityError {
        RefusalLosesExactlyWhen(r, d, v);
      }
    }
  }

  /** Exactly the refusals that drop a conflict lose something. */
  lemma ActionLosesNothingExactlyWhen(r: Replica, a: Action)
    ensures NothingLost(r, Act(r, a)) <==> !Loses(r, a)
  {
    NothingLostByIdentity(r, r);
    match a
    case Local(action) =>
      if Perform(r, action).Ok? {
        LocalActionLosesNothing(r, action);
      }
    case Take(_, _, _, _, _) =>
      TakeLosesExactlyWhen(r, a);
  }

  /** Nothing is lost between any two moments of the run. */
  ghost predicate NothingEverLost(r: Replica, actions: seq<Action>) {
    forall i, j :: 0 <= i <= j <= |actions| ==> NothingLost(After(r, actions[..i]), After(r, actions[..j]))
  }

  lemma {:induction false} NothingLostSince(r: Replica, actions: seq<Action>, i: nat, j: nat)
    requires i <= j <= |actions|
    requires forall k :: 0 <= k < |actions| ==> !Loses(After(r, actions[..k]), actions[k])
    ensures NothingLost(After(r, actions[..i]), After(r, actions[..j]))
    decreases j - i
  {
    hide Loses, Act;
    if i == j {
      NothingLostByIdentity(After(r, actions[..i]), After(r, actions[..j]));
    } else {
      NothingLostSince(r, actions, i, j - 1);
      AfterOneMore(r, actions, j - 1);
      ActionLosesNothingExactlyWhen(After(r, actions[..j - 1]), actions[j - 1]);
      NothingLostTransitive(After(r, actions[..i]), After(r, actions[..j - 1]), After(r, actions[..j]));
    }
  }

  lemma AfterOneMore(r: Replica, actions: seq<Action>, k: nat)
    requires k < |actions|
    ensures After(r, actions[..k + 1]) == Act(After(r, actions[..k]), actions[k])
  {
    assert actions[..k + 1][..k] == actions[..k];
  }

  /**
   * Every version held at some moment of a run is held at every later one, or superseded by a held
   * one, exactly when no step of the run is a refusal that drops a conflict.
   */
  lemma NoVersionIsLostExactlyWhen(r: Replica, actions: seq<Action>)
    ensures NothingEverLost(r, actions) <==>
      forall k :: 0 <= k < |actions| ==> !Loses(After(r, actions[..k]), actions[k])
  {
    hide Loses, NothingLost, Act;
    if forall k :: 0 <= k < |actions| ==> !Loses(After(r, actions[..k]), actions[k]) {
      forall i, j | 0 <= i <= j <= |actions| ensures NothingLost(After(r, actions[..i]), After(r, actions[..j])) {
        NothingLostSince(r, actions, i, j);
      }
    } else {
      var k :| 0 <= k < |actions| && Loses(After(r, actions[..k]), actions[k]);
      AfterOneMore(r, actions, k);
      ActionLosesNothingExactlyWhen(After(r, actions[..k]), actions[k]);
      assert !NothingLost(After(r, actions[..k]), After(r, actions[..k + 1]));
    }
  }

  /** The two ways out a caller has: versions that conflict are not saved, or the row is no duplicate. */
  lemma NoVersionIsLost(r: Replica, actions: seq<Action>)
    requires forall k :: 0 <= k < |actions| && actions[k].Take? ==>
      !actions[k].saveConflict || !Refuses(After(r, actions[..k]), actions[k].docId, actions[k].version)
    ensures NothingEverLost(r, actions)
  {
    NoVersionIsLostExactlyWhen(r, actions);
    hide NothingEverLost, Refuses, DropsAConflict;
  }

  // ---------- how much depends on the order of the conflicts ----------

  /** The same replica with the conflicts of a document in another order. */
  ghost function Reordered(r: Replica, docId: string, cs: seq<Version>): Replica {
    r.(conflicts := WithConflicts(r.conflicts, docId, cs))
  }

  /**
   * The order of the conflicts also decides about refusals, because a conflict merged first can prune
   * the row with our revision. It does so exactly when that row is shadowed.
   */
  lemma RefusalIgnoresOrderExactlyWhen(r: Replica, docId: string, v: Version)
    requires docId in r.docs && DistinctRevs(ConflictsOf(r, docId))
    requires var mine := r.docs[docId];
      !Covers(v.rev, mine.rev) && !Covers(mine.rev, v.rev) && mine.content != v.content
    ensures (forall ds :: multiset(ds) == multiset(ConflictsOf(r, docId)) ==>
              (Refuses(Reordered(r, docId, ds), docId, v) <==> Refuses(r, docId, v)))
      <==> (forall c <- ConflictsOf(r, docId) :: c.rev == r.docs[docId].rev ==> !Shadowed(v, ConflictsOf(r, docId), c))
  {
    var mine, cs := r.docs[docId], ConflictsOf(r, docId);
    hide Covers, Refuses, RevGoes, Shadowed, DistinctRevs;
    RefusesExactlyWhen(r, docId, v);
    if c :| c in cs && c.rev == mine.rev && Shadowed(v, cs, c) {
      var front, back := ShadowedMakesOrderMatter(v, cs, c);
      PrunedExactlyWhen(v, front, c.rev);
      PrunedExactlyWhen(v, back, c.rev);
      ReorderedRefuses(r, docId, v, front);
      ReorderedRefuses(r, docId, v, back);
      assert c.rev in Revs(cs);
    } else {
      forall ds | multiset(ds) == multiset(cs) ensures Refuses(Reordered(r, docId, ds), docId, v) <==> Refuses(r, docId, v) {
        ReorderedRefuses(r, docId, v, ds);
        if mine.rev in Revs(cs) {
          var c :| c in cs && c.rev == mine.rev;
          UnshadowedGoesExactlyWhen(v, cs, ds, c);
          UnshadowedGoesExactlyWhen(v, cs, cs, c);
        }
      }
    }
  }

  lemma ReorderedRefuses(r: Replica, docId: string, v: Version, ds: seq<Version>)
    requires docId in r.docs && multiset(ds) == multiset(ConflictsOf(r, docId))
    requires var mine := r.docs[docId];
      !Covers(v.rev, mine.rev) && !Covers(mine.rev, v.rev) && mine.content != v.content
    ensures Refuses(Reordered(r, docId, ds), docId, v) <==>
      r.docs[docId].rev in Revs(ConflictsOf(r, docId)) && !RevGoes(v, ds, r.docs[docId].rev)
  {
    hide Covers, Refuses, RevGoes, WithConflicts;
    SameMembers(ConflictsOf(r, docId), ds);
    assert Revs(ds) == Revs(ConflictsOf(r, docId));
    assert ConflictsOf(Reordered(r, docId, ds), docId) == ds;
    RefusesExactlyWhen(Reordered(r, docId, ds), docId, v);
  }

  // ---------- when a resolution can collide ----------

  /** The current revision and the conflicts' revisions are all different. */
  ghost predicate DistinctHeld(r: Replica, docId: string) {
    && DistinctRevs(ConflictsOf(r, docId))
    && (docId in r.docs ==> r.docs[docId].rev !in Revs(ConflictsOf(r, docId)))
  }

  lemma {:induction false} WithoutIsDistinct(vs: seq<Version>, revs: set<Clock>)
    requires DistinctRevs(vs)
    ensures DistinctRevs(Without(vs, revs))
  {
    if vs != [] {
      var init, last := vs[..|vs| - 1], vs[|vs| - 1];
      WithoutIsDistinct(init, revs);
      assert forall v <- Without(init, revs) :: v in init;
    }
  }

  lemma {:induction false} WithoutAppend(vs: seq<Version>, v: Version, revs: set<Clock>)
    requires v.rev !in revs
    ensures Without(vs + [v], revs) == Without(vs, revs) + [v]
  {
    assert (vs + [v])[..|vs|] == vs;
  }

  /** The revision a resolution computes is not that of a conflict. */
  ghost predicate KeepsApart(r: Replica, docId: string, revs: seq<Clock>) {
    docId in r.docs ==> MaximalRev(r.uid, r.docs[docId].rev, revs) !in Revs(ConflictsOf(r, docId))
  }

  /**
   * A resolution succeeds and keeps the revisions of a document apart exactly when the revision it
   * computes is not that of a conflict, whether or not it supersedes the current version.
   */
  lemma ResolutionKeepsRevisionsApartExactlyWhen(r: Replica, docId: string, content: Content, revs: seq<Clock>)
    requires DistinctHeld(r, docId) && docId in r.docs
    ensures var s := ResolveDoc(r, docId, content, revs);
      s.Ok? && DistinctHeld(s.value, docId) <==> KeepsApart(r, docId, revs)
  {
    hide MaximalRev, Newer, ResolveDoc, DistinctHeld, KeepsApart;
    ResolutionIsNeverSuperseded(r.uid, r.docs[docId].rev, revs);
    if r.docs[docId].rev in revs {
      ReplacedIsApart(r, docId, content, revs);
    } else {
      AddedIsApart(r, docId, content, revs);
    }
  }

  lemma RevsWithout(vs: seq<Version>, revs: set<Clock>)
    ensures Revs(Without(vs, revs)) == Revs(vs) - revs
  {
    forall rev ensures rev in Revs(Without(vs, revs)) <==> rev in Revs(vs) - revs {
      if rev in Revs(vs) - revs {
        var v :| v in vs && v.rev == rev;
        assert v in Without(vs, revs);
      }
    }
  }

  /** The resolution becomes current. */
  lemma ReplacedIsApart(r: Replica, docId: string, content: Content, revs: seq<Clock>)
    requires DistinctHeld(r, docId) && docId in r.docs && r.docs[docId].rev in revs
    requires MaximalRev(r.uid, r.docs[docId].rev, revs) !in revs
    ensures var s := ResolveDoc(r, docId, content, revs);
      s.Ok? && (DistinctHeld(s.value, docId) <==> KeepsApart(r, docId, revs))
  {
    var conflicts, superseded := ConflictsOf(r, docId), SetOf(revs);
    var s := ResolveDoc(r, docId, content, revs).value;
    hide MaximalRev;
    assert s.docs[docId].rev == MaximalRev(r.uid, r.docs[docId].rev, revs);
    assert ConflictsOf(s, docId) == Without(conflicts, superseded);
    hide ResolveDoc, Revs, DistinctRevs;
    WithoutIsDistinct(conflicts, superseded);
    RevsWithout(conflicts, superseded);
  }

  lemma WhatIsAdded(r: Replica, docId: string, content: Content, revs: seq<Clock>, resolved: Version)
    requires docId in r.docs && r.docs[docId].rev !in revs
    requires resolved == Version(MaximalRev(r.uid, r.docs[docId].rev, revs), content) && resolved.rev !in revs
    ensures var s := ResolveDoc(r, docId, content, revs);
      && (s.Ok? <==> resolved.rev !in Revs(ConflictsOf(r, docId)))
      && (s.Ok? ==>
           && s.value.docs == r.docs
           && ConflictsOf(s.value, docId) == Without(ConflictsOf(r, docId), SetOf(revs)) + [resolved])
  {
    hide MaximalRev, Revs;
    WithoutAppend(ConflictsOf(r, docId), resolved, SetOf(revs));
  }

  /** The current version stands and the resolution becomes a conflict. */
  lemma AddedIsApart(r: Replica, docId: string, content: Content, revs: seq<Clock>)
    requires DistinctHeld(r, docId) && docId in r.docs && r.docs[docId].rev !in revs
    requires MaximalRev(r.uid, r.docs[docId].rev, revs) !in revs
    requires Newer(MaximalRev(r.uid, r.docs[docId].rev, revs), r.docs[docId].rev)
    ensures var s := ResolveDoc(r, docId, content, revs);
      s.Ok? && DistinctHeld(s.value, docId) <==> KeepsApart(r, docId, revs)
  {
    var conflicts, superseded := ConflictsOf(r, docId), SetOf(revs);
    var resolved := Version(MaximalRev(r.uid, r.docs[docId].rev, revs), content);
    hide MaximalRev, ResolveDoc, Revs, DistinctRevs, ConflictsOf;
    WhatIsAdded(r, docId, content, revs, resolved);
    WithoutIsDistinct(conflicts, superseded);
    RevsWithout(conflicts, superseded);
    if resolved.rev !in Revs(conflicts) {
      OneMoreIsDistinct(Without(conflicts, superseded), resolved);
    }
  }

  lemma OneMoreIsDistinct(vs: seq<Version>, v: Version)
    requires DistinctRevs(vs) && v.rev !in Revs(vs)
    ensures DistinctRevs(vs + [v]) && Revs(vs + [v]) == Revs(vs) + {v.rev}
  {
    assert forall x :: x in vs + [v] <==> x in vs || x == v;
  }

  /**
   * It does happen: a resolution that supersedes nothing becomes a conflict; resolving again,
   * now superseding the current version, computes the very same revision for other content.
   */
  lemma TwoResolutionsCanShareARevision(r: Replica, docId: string, first: Content, second: Content)
    requires docId in r.docs && ConflictsOf(r, docId) == []
    ensures var once := ResolveDoc(r, docId, first, []);
      && once.Ok?
      && DistinctHeld(once.value, docId)
      && var twice := ResolveDoc(once.value, docId, second, [r.docs[docId].rev]);
        && twice.Ok?
        && !DistinctHeld(twice.value, docId)
        && Version(twice.value.docs[docId].rev, first) in ConflictsOf(twice.value, docId)
        && twice.value.docs[docId].content == second
  {
    var cur := r.docs[docId];
    var rev := Increment(cur.rev, r.uid);
    assert JoinAll(cur.rev, []) == cur.rev;
    var once := ResolveDoc(r, docId, first, []).value;
    IncrementIsNewer(cur.rev, r.uid);
    assert [] + [Version(rev, first)] == [Version(rev, first)];
    assert [Version(rev, first)][..0] == [];
    assert Without([Version(rev, first)], {}) == [Version(rev, first)];
    assert SetOf([]) == {};
    assert ConflictsOf(once, docId) == [Version(rev, first)];
    assert [cur.rev][..0] == [];
    JoinAbsorbs(cur.rev, cur.rev);
    assert JoinAll(cur.rev, [cur.rev]) == cur.rev;
    var twice := ResolveDoc(once, docId, second, [cur.rev]).value;
    assert twice.docs[docId].rev == rev;
    assert Version(rev, first) in ConflictsOf(twice, docId);
  }
}
