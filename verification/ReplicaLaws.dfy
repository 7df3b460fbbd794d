/**
 * What the operations on a replica mean to a caller: exactly when each of them succeeds or fails, and
 * what it leaves behind, in terms of what the replica holds.
 */
module ReplicaLaws {
  import opened ChangeLog
  import opened Documents
  import opened Pruning
  import opened Replicas
  import opened VectorClocks
  import opened Wrappers

  // ---------- document ids ----------

  const ID_CHARACTERS := "ABCDEFGHIJKLMNOPQRSTUVWXYZ" + "abcdefghijklmnopqrstuvwxyz" + "0123456789" + ".%_-"

  lemma InText(s: string, t: string, c: char)
    ensures c in s + t <==> c in s || c in t
  {}

  lemma InRange(s: string, first: char, last: char, c: char)
    requires |s| == (last as int - first as int) + 1
    requires forall i :: 0 <= i < |s| ==> s[i] as int == first as int + i
    ensures c in s <==> first <= c <= last
  {
    if first <= c <= last {
      assert s[c as int - first as int] == c;
    }
  }

  lemma Letters()
    ensures forall i :: 0 <= i < 26 ==> "ABCDEFGHIJKLMNOPQRSTUVWXYZ"[i] as int == 'A' as int + i
    ensures forall i :: 0 <= i < 26 ==> "abcdefghijklmnopqrstuvwxyz"[i] as int == 'a' as int + i
    ensures forall i :: 0 <= i < 10 ==> "0123456789"[i] as int == '0' as int + i
  {}

  lemma IdCharacters(c: char)
    ensures AllowedInDocId(c) <==> c in ID_CHARACTERS
  {
    Letters();
    InRange("ABCDEFGHIJKLMNOPQRSTUVWXYZ", 'A', 'Z', c);
    InRange("abcdefghijklmnopqrstuvwxyz", 'a', 'z', c);
    InRange("0123456789", '0', '9', c);
    InFour("ABCDEFGHIJKLMNOPQRSTUVWXYZ", "abcdefghijklmnopqrstuvwxyz", "0123456789", ".%_-", c);
  }

  lemma InFour(s: string, t: string, u: string, w: string, c: char)
    ensures c in s + t + u + w <==> c in s || c in t || c in u || c in w
  {
    InText(s + t + u, w, c);
    InText(s + t, u, c);
    InText(s, t, c);
  }

  // ---------- put and delete ----------

  lemma DocIdExactly(docId: string)
    ensures ValidDocId(docId) <==>
      var body := if docId != "" && docId[|docId| - 1] == '\n' then docId[..|docId| - 1] else docId;
      body != "" && forall c <- body :: c in ID_CHARACTERS
  {
    forall c: char ensures AllowedInDocId(c) <==> c in ID_CHARACTERS {
      IdCharacters(c);
    }
  }

  /** What a write of a new current version leaves: one more row, and nothing else changed. */
  ghost predicate Wrote(r: Replica, s: Replica, docId: string, v: Version, conflicts: seq<Version>) {
    && s.uid == r.uid && s.ids == r.ids && s.known == r.known
    && s.docs == r.docs[docId := v]
    && s.log == r.log + [Entry(docId, r.ids(|r.log| + 1))]
    && (forall d: string :: ConflictsOf(s, d) == if d == docId then conflicts else ConflictsOf(r, d))
  }

  /**
   * A put fails on a bad id first, then on conflicts, then on a revision that is not the current one;
   * a deleted document may also be put without a revision.
   */
  lemma PutDocExactly(r: Replica, docId: string, rev: Option<Clock>, content: Content)
    ensures var put := PutDoc(r, docId, rev, content);
      var body := if docId != "" && docId[|docId| - 1] == '\n' then docId[..|docId| - 1] else docId;
      if body == "" || exists c <- body :: c !in ID_CHARACTERS then put == Err(InvalidDocId)
      else if docId !in r.docs then
        if rev == None then put.Ok? && Wrote(r, put.value, docId, Version(map[r.uid := 1], content), ConflictsOf(r, docId))
        else put == Err(RevisionConflict)
      else
        var cur := r.docs[docId];
        if ConflictsOf(r, docId) != [] then put == Err(ConflictedDoc)
        else if rev == Some(cur.rev) || (rev == None && cur.content == None) then
          && put.Ok?
          && Wrote(r, put.value, docId, Version(Increment(cur.rev, r.uid), content), [])
        else put == Err(RevisionConflict)
  {
    DocIdExactly(docId);
    hide ValidDocId, ID_CHARACTERS;
    if docId !in r.docs {
      assert Increment(ZERO, r.uid) == map[r.uid := 1];
    }
    hide Increment;
  }

  /** The ids the program allocates are accepted. */
  lemma AllocatedIdIsAccepted(r: Replica, hex: string, content: Content)
    requires forall c <- hex :: c in "0123456789abcdef"
    requires "D-" + hex !in r.docs
    ensures PutDoc(r, "D-" + hex, None, content).Ok?
  {
    var docId := "D-" + hex;
    assert docId[|docId| - 1] != '\n' by {
      if hex != "" {
        assert docId[|docId| - 1] == hex[|hex| - 1] && hex[|hex| - 1] in hex;
      }
    }
    forall c <- docId ensures AllowedInDocId(c) {
      assert c in "D-" || c in hex;
    }
    assert ValidDocId(docId);
    hide Increment;
  }

  lemma DeleteDocExactly(r: Replica, docId: string, rev: Option<Clock>)
    ensures var deleted := DeleteDoc(r, docId, rev);
      if docId !in r.docs then deleted == Err(DocumentDoesNotExist)
      else
        var cur := r.docs[docId];
        if rev != Some(cur.rev) then deleted == Err(RevisionConflict)
        else if cur.content == None then deleted == Err(DocumentAlreadyDeleted)
        else if ConflictsOf(r, docId) != [] then deleted == Err(ConflictedDoc)
        else
          && deleted.Ok?
          && Wrote(r, deleted.value, docId, Version(Increment(cur.rev, r.uid), None), [])
  {
    hide Increment;
  }

  // ---------- resolving ----------

  /** The least clock that covers all of them, with the replica's own counter then raised by one. */
  ghost predicate IsAbove(uid: string, clock: Clock, rev: Clock, revs: seq<Clock>) {
    exists top: Clock ::
      && Covers(top, rev) && (forall x <- revs :: Covers(top, x))
      && (forall bound: Clock :: Covers(bound, rev) && (forall x <- revs :: Covers(bound, x)) ==> Covers(bound, top))
      && clock == top[uid := (if uid in top then top[uid] else 0) + 1]
  }

  lemma {:induction false} JoinAllIsLeast(rev: Clock, revs: seq<Clock>, bound: Clock)
    requires Covers(bound, rev) && forall x <- revs :: Covers(bound, x)
    ensures Covers(bound, JoinAll(rev, revs))
  {
    hide Covers;
    if revs != [] {
      var init, last := revs[..|revs| - 1], revs[|revs| - 1];
      assert last in revs && forall x <- init :: x in revs;
      JoinAllIsLeast(rev, init, bound);
      JoinIsLeastUpperBound(JoinAll(rev, init), last, bound);
    }
  }

  lemma MaximalRevExactly(uid: string, rev: Clock, revs: seq<Clock>)
    ensures IsAbove(uid, MaximalRev(uid, rev, revs), rev, revs)
  {
    hide Covers;
    var top := JoinAll(rev, revs);
    JoinAllCovers(rev, revs);
    forall bound: Clock | Covers(bound, rev) && forall x <- revs :: Covers(bound, x) ensures Covers(bound, top) {
      JoinAllIsLeast(rev, revs, bound);
    }
    assert MaximalRev(uid, rev, revs) == top[uid := (if uid in top then top[uid] else 0) + 1];
  }

  /** A resolution has the revision just described, and the content given. */
  ghost predicate IsResolution(r: Replica, docId: string, v: Version, content: Content, revs: seq<Clock>)
    requires docId in r.docs
  {
    v.content == content && IsAbove(r.uid, v.rev, r.docs[docId].rev, revs)
  }

  /**
   * What resolving leaves: the resolution, current or in conflict, and of what was held exactly the
   * versions that are not named. Only a change of the current version is logged.
   */
  ghost predicate Resolved(r: Replica, s: Replica, docId: string, v: Version, revs: seq<Clock>)
    requires docId in r.docs
  {
    var cur, conflicts := r.docs[docId], ConflictsOf(r, docId);
    && s.uid == r.uid && s.ids == r.ids && s.known == r.known
    && s.docs == r.docs[docId := if cur.rev in revs then v else cur]
    && (forall d: string :: d != docId ==> ConflictsOf(s, d) == ConflictsOf(r, d))
    && (forall x :: x in ConflictsOf(s, docId) <==>
         x.rev !in revs && (x in conflicts || (x == v && cur.rev !in revs)))
    && (forall x :: x in Held(s, docId) <==> x == v || (x in Held(r, docId) && x.rev !in revs))
  }

  /** The resolution `v` is refused if its revision is that of a conflict and it would be another one. */
  ghost predicate ResolvesTo(r: Replica, docId: string, revs: seq<Clock>, v: Version, resolved: Result<Replica>)
    requires docId in r.docs
  {
    var cur := r.docs[docId];
    if cur.rev !in revs && exists c <- ConflictsOf(r, docId) :: c.rev == v.rev then resolved == Err(IntegrityError)
    else
      && resolved.Ok?
      && Resolved(r, resolved.value, docId, v, revs)
      && resolved.value.log == r.log + if cur.rev in revs then [Entry(docId, r.ids(|r.log| + 1))] else []
  }

  lemma ResolveDocExactly(r: Replica, docId: string, content: Content, revs: seq<Clock>)
    ensures docId !in r.docs ==> ResolveDoc(r, docId, content, revs) == Err(DocumentDoesNotExist)
    ensures docId in r.docs ==> exists v ::
      IsResolution(r, docId, v, content, revs) && ResolvesTo(r, docId, revs, v, ResolveDoc(r, docId, content, revs))
  {
    if docId in r.docs {
      var v := Version(MaximalRev(r.uid, r.docs[docId].rev, revs), content);
      MaximalRevExactly(r.uid, r.docs[docId].rev, revs);
      ResolutionIsNeverSuperseded(r.uid, r.docs[docId].rev, revs);
      hide MaximalRev, IsAbove, Newer, ResolveDoc, ResolvesTo;
      ResolveGoes(r, docId, content, revs, v);
      assert IsResolution(r, docId, v, content, revs);
    }
  }

  lemma ResolveGoes(r: Replica, docId: string, content: Content, revs: seq<Clock>, v: Version)
    requires docId in r.docs
    requires v == Version(MaximalRev(r.uid, r.docs[docId].rev, revs), content) && v.rev !in revs
    ensures ResolvesTo(r, docId, revs, v, ResolveDoc(r, docId, content, revs))
  {
    hide MaximalRev, Resolved, WithConflicts, Without;
    if ResolveDoc(r, docId, content, revs).Ok? {
      ResolveLeaves(r, docId, content, revs, v);
    }
  }

  lemma ResolveLeavesRows(r: Replica, docId: string, content: Content, revs: seq<Clock>, v: Version)
    requires docId in r.docs && ResolveDoc(r, docId, content, revs).Ok?
    requires v == Version(MaximalRev(r.uid, r.docs[docId].rev, revs), content) && v.rev !in revs
    ensures var s, cur := ResolveDoc(r, docId, content, revs).value, r.docs[docId];
      && s.ids == r.ids && s.docs == r.docs[docId := if cur.rev in revs then v else cur]
      && forall x :: x in ConflictsOf(s, docId) <==>
           x.rev !in revs && (x in ConflictsOf(r, docId) || (x == v && cur.rev !in revs))
  {
    hide MaximalRev, Revs;
    if r.docs[docId].rev !in revs {
      assert r.docs[docId := r.docs[docId]] == r.docs;
    }
  }

  lemma ResolveLeaves(r: Replica, docId: string, content: Content, revs: seq<Clock>, v: Version)
    requires docId in r.docs && ResolveDoc(r, docId, content, revs).Ok?
    requires v == Version(MaximalRev(r.uid, r.docs[docId].rev, revs), content) && v.rev !in revs
    ensures Resolved(r, ResolveDoc(r, docId, content, revs).value, docId, v, revs)
  {
    hide MaximalRev, ResolveDoc;
    var s := ResolveDoc(r, docId, content, revs).value;
    ResolveFrame(r, docId, content, revs);
    ResolveLeavesRows(r, docId, content, revs, v);
    forall d: string | d != docId ensures ConflictsOf(s, d) == ConflictsOf(r, d) {
      SameElsewhere(r, s, docId, d);
    }
    hide ConflictsOf;
  }

  /**
   * The ordinary resolution, which names the current revision and every conflict: only the resolution
   * is held afterwards, and the document can be put again.
   */
  lemma FullResolutionSettles(r: Replica, docId: string, content: Content, revs: seq<Clock>)
    requires docId in r.docs && r.docs[docId].rev in revs
    requires forall c <- ConflictsOf(r, docId) :: c.rev in revs
    ensures var resolved := ResolveDoc(r, docId, content, revs);
      && resolved.Ok?
      && ConflictsOf(resolved.value, docId) == []
      && docId in resolved.value.docs && resolved.value.docs[docId].content == content
      && Held(resolved.value, docId) == {resolved.value.docs[docId]}
      && forall next :: PutDoc(resolved.value, docId, Some(resolved.value.docs[docId].rev), next) != Err(ConflictedDoc)
  {
    hide IsAbove, PutDoc, ResolveDoc;
    ResolveDocExactly(r, docId, content, revs);
    var s := ResolveDoc(r, docId, content, revs).value;
    NoneIsEmpty(ConflictsOf(s, docId));
    forall next ensures PutDoc(s, docId, Some(s.docs[docId].rev), next) != Err(ConflictedDoc) {
      PutDocExactly(s, docId, Some(s.docs[docId].rev), next);
    }
  }

  lemma NoneIsEmpty(vs: seq<Version>)
    ensures (forall v :: v !in vs) <==> vs == []
  {
    if vs != [] {
      assert vs[0] in vs;
    }
  }

  // ---------- taking in a version ----------

  /** Some conflict says the same and is not older: the incoming version is then stored with a newer revision. */
  ghost predicate Merges(r: Replica, docId: string, v: Version) {
    exists c <- ConflictsOf(r, docId) :: c.content == v.content && !Newer(v.rev, c.rev)
  }

  /** Each of the four outcomes, exactly when it is given. */
  lemma OutcomesExactly(r: Replica, docId: string, v: Version, saveConflict: bool)
    requires Merge(r, docId, v, saveConflict).Ok?
    ensures var o := Merge(r, docId, v, saveConflict).value.outcome;
      var cur := if docId in r.docs then r.docs[docId].rev else map[];
      && (o == Inserted <==> Newer(v.rev, cur) && !Merges(r, docId, v))
      && (o == Converged <==> docId in r.docs && v.rev == cur)
      && (o == ConflictFound <==>
           && docId in r.docs && r.docs[docId].content != v.content
           && !Covers(v.rev, cur) && !Covers(cur, v.rev))
      && (o == Superseded <==>
           || Newer(cur, v.rev)
           || (Newer(v.rev, cur) && Merges(r, docId, v))
           || (docId in r.docs && r.docs[docId].content == v.content && !Covers(v.rev, cur) && !Covers(cur, v.rev)))
  {
    PrunedLeaves(r, docId, v);
    NewerIsStrictOrder(v.rev, v.rev, v.rev);
    var cur := RevOf(r, docId);
    NewerIsStrictOrder(cur, v.rev, v.rev);
    NewerIsStrictOrder(v.rev, cur, cur);
    CoversEachOther(v.rev, cur);
    CoversEachOther(cur, v.rev);
    hide Prune, Merges, Covers, Join, Increment, RevGoes;
  }

  lemma CoversEachOther(a: Clock, b: Clock)
    ensures Covers(a, b) && Covers(b, a) ==> a == b
    ensures a == b ==> Covers(a, b)
    ensures Newer(a, b) <==> Covers(a, b) && a != b
  {
    if Covers(a, b) && Covers(b, a) {
      CoversAntisymmetric(a, b);
    }
  }

  lemma PrunedLeaves(r: Replica, docId: string, v: Version)
    ensures var p, cs := Prune(r.uid, v, ConflictsOf(r, docId)), ConflictsOf(r, docId);
      && p.doc.content == v.content && Covers(p.doc.rev, v.rev)
      && (if Merges(r, docId, v) then Newer(p.doc.rev, v.rev) else p.doc == v)
      && forall c :: c in p.kept <==> c in cs && !RevGoes(v, cs, c.rev)
  {
    var cs := ConflictsOf(r, docId);
    PruneIsSafe(r.uid, v, cs);
    AutoresolvesExactlyWhen(v, cs);
    CoversEachOther(v.rev, v.rev);
    forall c ensures c in Prune(r.uid, v, cs).kept <==> c in cs && !RevGoes(v, cs, c.rev) {
      KeptExactlyWhen(r.uid, v, cs, c);
    }
    hide ScanAll, RevGoes;
  }

  /** A newer version becomes current; conflicts it makes obsolete go, the others stay. */
  lemma NewerVersionLeaves(r: Replica, docId: string, v: Version, saveConflict: bool)
    requires Newer(v.rev, if docId in r.docs then r.docs[docId].rev else map[])
    ensures var taken := Merge(r, docId, v, saveConflict);
      && taken.Ok?
      && var s := taken.value.replica;
        && docId in s.docs
        && Wrote(r, s, docId, s.docs[docId], ConflictsOf(s, docId))
        && s.docs[docId].content == v.content
        && (if Merges(r, docId, v) then Newer(s.docs[docId].rev, v.rev) else s.docs[docId] == v)
        && forall c :: c in ConflictsOf(s, docId) <==>
             c in ConflictsOf(r, docId) && !RevGoes(v, ConflictsOf(r, docId), c.rev)
  {
    PrunedLeaves(r, docId, v);
    hide Prune, Newer, RevGoes, Merges;
    var s := Merge(r, docId, v, saveConflict).value.replica;
    assert Merge(r, docId, v, saveConflict) == Ok(StoreNewer(r, docId, v));
  }

  /** A conflicting version becomes current; ours becomes one more conflict. */
  lemma ConflictLeaves(r: Replica, docId: string, v: Version)
    requires docId in r.docs && !Covers(v.rev, r.docs[docId].rev) && !Covers(r.docs[docId].rev, v.rev)
    requires r.docs[docId].content != v.content && !Refuses(r, docId, v)
    ensures var taken := Merge(r, docId, v, true);
      && taken.Ok?
      && var s := taken.value.replica;
        && docId in s.docs
        && Wrote(r, s, docId, s.docs[docId], ConflictsOf(s, docId))
        && s.docs[docId].content == v.content
        && (if Merges(r, docId, v) then Newer(s.docs[docId].rev, v.rev) else s.docs[docId] == v)
        && forall c :: c in ConflictsOf(s, docId) <==>
             c == r.docs[docId] || (c in ConflictsOf(r, docId) && !RevGoes(v, ConflictsOf(r, docId), c.rev))
  {
    PrunedLeaves(r, docId, v);
    MergeFailsExactlyWhen(r, docId, v, true);
    CoversEachOther(v.rev, r.docs[docId].rev);
    CoversEachOther(r.docs[docId].rev, v.rev);
    hide Prune, Newer, Covers, RevGoes, Merges, Refuses;
    assert Merge(r, docId, v, true) == Ok(Taken(ConflictFound, ForceConflict(r, docId, v).value));
  }

  /** Both sides were edited to the same: a revision above both is stored. */
  lemma SameContentLeaves(r: Replica, docId: string, v: Version, saveConflict: bool)
    requires docId in r.docs && !Covers(v.rev, r.docs[docId].rev) && !Covers(r.docs[docId].rev, v.rev)
    requires r.docs[docId].content == v.content
    ensures var taken := Merge(r, docId, v, saveConflict);
      && taken.Ok?
      && var s := taken.value.replica;
        && docId in s.docs
        && Wrote(r, s, docId, s.docs[docId], ConflictsOf(r, docId))
        && s.docs[docId].content == v.content
        && IsAbove(r.uid, s.docs[docId].rev, r.docs[docId].rev, [v.rev])
  {
    var cur := r.docs[docId].rev;
    CoversEachOther(v.rev, cur);
    CoversEachOther(cur, v.rev);
    MaximalRevExactly(r.uid, cur, [v.rev]);
    JoinCommutes(cur, v.rev);
    assert [v.rev][..0] == [];
    assert JoinAll(cur, []) == cur && JoinAll(cur, [v.rev]) == Join(cur, v.rev);
    hide Newer, Covers, Join, IsAbove, JoinAll;
    assert Merge(r, docId, v, saveConflict).value.replica ==
      Store(r, docId, Version(Increment(Join(v.rev, cur), r.uid), v.content));
    hide Increment;
  }

  lemma JoinCommutes(a: Clock, b: Clock)
    ensures Join(a, b) == Join(b, a)
  {
    JoinIsLeastUpperBound(a, b, Join(b, a));
    JoinIsLeastUpperBound(b, a, Join(a, b));
    CoversAntisymmetric(Join(a, b), Join(b, a));
  }

  /** Everything else leaves the replica alone. */
  lemma OthersLeaveAlone(r: Replica, docId: string, v: Version, saveConflict: bool)
    requires docId in r.docs
    requires var mine := r.docs[docId];
      || v.rev == mine.rev || Newer(mine.rev, v.rev)
      || (!saveConflict && mine.content != v.content && !Covers(v.rev, mine.rev) && !Covers(mine.rev, v.rev))
    ensures Merge(r, docId, v, saveConflict).Ok? && Merge(r, docId, v, saveConflict).value.replica == r
  {
    var cur := r.docs[docId].rev;
    CoversEachOther(v.rev, cur);
    CoversEachOther(cur, v.rev);
    NewerIsStrictOrder(cur, v.rev, v.rev);
    hide Covers, Newer;
  }

  // ---------- what is known of the other replica ----------

  /**
   * A point behind the recorded one is refused, and so is one of the same generation with another
   * transaction id; then nothing changes. An accepted version records its point, and no other.
   */
  lemma SyncPointExactly(r: Replica, docId: string, v: Version, saveConflict: bool, source: string, p: SyncPoint)
    ensures var put, after := PutDocIfNewer(r, docId, v, saveConflict, source, p), AfterPut(r, docId, v, saveConflict, source, p);
      var last := if source in r.known then r.known[source] else SyncPoint(0, "");
      if p.gen < last.gen then put == Err(InvalidGeneration) && after == r
      else if p.gen == last.gen && p.transId != last.transId then put == Err(InvalidTransactionId) && after == r
      else
        var m := Merge(r, docId, v, saveConflict);
        if m.Err? then put == Err(m.error) && after.known == r.known && after.docs == r.docs && after.log == r.log
        else
          && put.Ok? && put.value.outcome == m.value.outcome
          && after == put.value.replica == m.value.replica.(known := r.known[source := p])
  {
    MergeKeepsKnown(r, docId, v, saveConflict);
    hide Merge, Prune, WithConflicts;
  }

  lemma MergeKeepsKnown(r: Replica, docId: string, v: Version, saveConflict: bool)
    ensures var m := Merge(r, docId, v, saveConflict);
      m.Ok? ==> m.value.replica.known == r.known
  {
    hide Prune, Newer, Join, Increment, WithConflicts;
  }
}
