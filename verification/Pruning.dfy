/**
 * Pruning the stored conflicts of a document that is about to become the current version.
 * `Prune` is the specification; the SQL tables and the server documents both implement it.
 */
module Pruning {
  import opened Documents
  import opened VectorClocks

  /** What the scan over the conflicts has accumulated. */
  datatype Scan = Scan(clock: Clock, toPrune: set<Clock>, autoresolved: bool)

  function ScanOne(acc: Scan, content: Content, c: Version): Scan {
    if Newer(acc.clock, c.rev) then
      acc.(toPrune := acc.toPrune + {c.rev})
    else if content == c.content then
      Scan(Join(acc.clock, c.rev), acc.toPrune + {c.rev}, true)
    else
      acc
  }

  function ScanAll(doc: Version, cs: seq<Version>): Scan {
    if cs == [] then Scan(doc.rev, {}, false)
    else ScanOne(ScanAll(doc, cs[..|cs| - 1]), doc.content, cs[|cs| - 1])
  }

  /** The document with its possibly bumped revision, and the conflicts that stay. */
  datatype Pruned = Pruned(doc: Version, kept: seq<Version>, autoresolved: bool)

  function Prune(uid: string, doc: Version, cs: seq<Version>): Pruned {
    var s := ScanAll(doc, cs);
    Pruned(
      if s.autoresolved then Version(Increment(s.clock, uid), doc.content) else doc,
      Without(cs, s.toPrune),
      s.autoresolved)
  }

  lemma NothingToPrune(uid: string, v: Version)
    ensures Prune(uid, v, []) == Pruned(v, [], false)
  {}

  // ---------- what pruning guarantees ----------

  lemma {:induction false} ScanGrows(doc: Version, cs: seq<Version>)
    ensures var s := ScanAll(doc, cs);
      && Covers(s.clock, doc.rev)
      && (!s.autoresolved ==> s.clock == doc.rev)
      && (forall r <- s.toPrune :: if s.autoresolved then Covers(s.clock, r) else Newer(s.clock, r))
      && s.toPrune <= Revs(cs)
  {
    if cs != [] {
      var init, c := cs[..|cs| - 1], cs[|cs| - 1];
      ScanGrows(doc, init);
      var before, after := ScanAll(doc, init), ScanAll(doc, cs);
      JoinIsLeastUpperBound(before.clock, c.rev, c.rev);
      CoversTransitiveFrom(after.clock, before.clock);
      assert c in cs && forall v <- init :: v in cs;
    }
  }

  lemma CoversTransitiveFrom(a: Clock, b: Clock)
    ensures Covers(a, b) ==> forall c :: Covers(b, c) ==> Covers(a, c)
    ensures Covers(a, b) ==> forall c :: Newer(b, c) ==> Newer(a, c)
  {
    if Covers(a, b) {
      forall c | Covers(b, c) ensures Covers(a, c) {
        CoversTransitive(a, b, c);
      }
      forall c | Newer(b, c) ensures Newer(a, c) {
        NewerIsStrictOrder(a, b, c);
      }
    }
  }

  /**
   * Nothing is thrown away that the new current version does not supersede, and the revision
   * changes exactly when a conflict is merged in, then to a strictly newer one.
   */
  lemma PruneIsSafe(uid: string, doc: Version, cs: seq<Version>)
    ensures var p := Prune(uid, doc, cs);
      && (forall c <- cs :: c in p.kept || Newer(p.doc.rev, c.rev))
      && (forall c <- p.kept :: c in cs)
      && p.doc.content == doc.content
      && (if p.autoresolved then Newer(p.doc.rev, doc.rev) else p.doc == doc)
  {
    var s := ScanAll(doc, cs);
    var p := Prune(uid, doc, cs);
    ScanGrows(doc, cs);
    if s.autoresolved {
      IncrementIsNewer(s.clock, uid);
      NewerIsStrictOrder(p.doc.rev, s.clock, doc.rev);
    }
    forall c <- cs ensures c in p.kept || Newer(p.doc.rev, c.rev) {
      if c.rev in s.toPrune {
        NewerIsStrictOrder(p.doc.rev, s.clock, c.rev);
      }
    }
  }

  /** Exactly when the incoming revision is replaced: some conflict says the same and is not older. */
  lemma {:induction false} AutoresolvesExactlyWhen(doc: Version, cs: seq<Version>)
    ensures ScanAll(doc, cs).autoresolved <==>
      exists c <- cs :: c.content == doc.content && !Newer(doc.rev, c.rev)
  {
    if cs != [] {
      var init, c := cs[..|cs| - 1], cs[|cs| - 1];
      AutoresolvesExactlyWhen(doc, init);
      ScanGrows(doc, init);
      assert cs == init + [c];
    }
  }

  // ---------- which conflicts go ----------

  /** The document's revision joined with that of every conflict that has its content. */
  function MergedClock(doc: Version, cs: seq<Version>): Clock {
    if cs == [] then doc.rev
    else
      var clock, c := MergedClock(doc, cs[..|cs| - 1]), cs[|cs| - 1];
      if c.content == doc.content then Join(clock, c.rev) else clock
  }

  lemma {:induction false} ScanClockIsMerged(doc: Version, cs: seq<Version>)
    ensures ScanAll(doc, cs).clock == MergedClock(doc, cs)
  {
    if cs != [] {
      var init, c := cs[..|cs| - 1], cs[|cs| - 1];
      ScanClockIsMerged(doc, init);
      if Newer(MergedClock(doc, init), c.rev) {
        JoinAbsorbs(MergedClock(doc, init), c.rev);
      }
    }
  }

  /** A conflict goes if it says the same, or is older than what has been merged by the time it is read. */
  predicate Goes(doc: Version, cs: seq<Version>, i: nat)
    requires i < |cs|
  {
    cs[i].content == doc.content || Newer(MergedClock(doc, cs[..i]), cs[i].rev)
  }

  /** The rows are deleted by revision. */
  predicate RevGoes(doc: Version, cs: seq<Version>, rev: Clock) {
    exists i | 0 <= i < |cs| :: cs[i].rev == rev && Goes(doc, cs, i)
  }

  lemma RevGoesAppend(doc: Version, cs: seq<Version>, c: Version, rev: Clock)
    ensures RevGoes(doc, cs + [c], rev) <==>
      RevGoes(doc, cs, rev) || (c.rev == rev && (c.content == doc.content || Newer(MergedClock(doc, cs), c.rev)))
  {
    hide Newer, MergedClock;
    var longer := cs + [c];
    assert longer[..|cs|] == cs;
    forall i | 0 <= i < |cs| ensures longer[i] == cs[i] && longer[..i] == cs[..i] {}
    if i :| 0 <= i < |cs| && cs[i].rev == rev && Goes(doc, cs, i) {
      assert Goes(doc, longer, i);
    }
    if c.rev == rev && (c.content == doc.content || Newer(MergedClock(doc, cs), c.rev)) {
      assert longer[|cs|].rev == rev && Goes(doc, longer, |cs|);
    }
    if i :| 0 <= i < |longer| && longer[i].rev == rev && Goes(doc, longer, i) {
      assert i < |cs| ==> Goes(doc, cs, i);
    }
  }

  /** Exactly which revisions the scan prunes, read off the conflicts in their order. */
  lemma {:induction false} PrunedExactlyWhen(doc: Version, cs: seq<Version>, rev: Clock)
    ensures rev in ScanAll(doc, cs).toPrune <==> RevGoes(doc, cs, rev)
  {
    hide Newer, MergedClock, RevGoes;
    if cs == [] {
      NothingGoes(doc, rev);
    } else {
      var init, c := cs[..|cs| - 1], cs[|cs| - 1];
      assert cs == init + [c];
      PrunedExactlyWhen(doc, init, rev);
      ScanClockIsMerged(doc, init);
      RevGoesAppend(doc, init, c, rev);
    }
  }

  lemma NothingGoes(doc: Version, rev: Clock)
    ensures !RevGoes(doc, [], rev)
  {}

  /** What pruning keeps, in the same terms. */
  lemma KeptExactlyWhen(uid: string, doc: Version, cs: seq<Version>, c: Version)
    ensures c in Prune(uid, doc, cs).kept <==> c in cs && !RevGoes(doc, cs, c.rev)
  {
    PrunedExactlyWhen(doc, cs, c.rev);
    hide RevGoes, ScanAll;
  }

  // ---------- how much depends on the order of the conflicts ----------

  /** The join of the document's revision and of every conflict that has its content. */
  ghost predicate IsMergedClock(doc: Version, cs: seq<Version>, clock: Clock) {
    && Covers(clock, doc.rev)
    && (forall c <- cs :: c.content == doc.content ==> Covers(clock, c.rev))
    && (forall bound: Clock ::
         Covers(bound, doc.rev) && (forall c <- cs :: c.content == doc.content ==> Covers(bound, c.rev))
         ==> Covers(bound, clock))
  }

  lemma {:induction false} ScanMerges(doc: Version, cs: seq<Version>)
    ensures IsMergedClock(doc, cs, ScanAll(doc, cs).clock)
  {
    if cs != [] {
      var init, c := cs[..|cs| - 1], cs[|cs| - 1];
      assert cs == init + [c];
      ScanMerges(doc, init);
      var before, after := ScanAll(doc, init).clock, ScanAll(doc, cs).clock;
      JoinIsLeastUpperBound(before, c.rev, c.rev);
      CoversTransitiveFrom(after, before);
      forall bound: Clock | Covers(bound, doc.rev)
          && (forall x <- cs :: x.content == doc.content ==> Covers(bound, x.rev))
        ensures Covers(bound, after)
      {
        assert forall x <- init :: x in cs;
        JoinIsLeastUpperBound(before, c.rev, bound);
      }
    }
  }

  /** The resulting document does not depend on the order in which the conflicts are read. */
  lemma PrunedDocIgnoresOrder(uid: string, doc: Version, cs: seq<Version>, ds: seq<Version>)
    requires multiset(cs) == multiset(ds)
    ensures Prune(uid, doc, cs).doc == Prune(uid, doc, ds).doc
    ensures Prune(uid, doc, cs).autoresolved == Prune(uid, doc, ds).autoresolved
    ensures ScanAll(doc, cs).clock == ScanAll(doc, ds).clock
  {
    assert forall c :: c in cs <==> c in multiset(cs);
    assert forall c :: c in ds <==> c in multiset(ds);
    assert forall c :: c in cs <==> c in ds;
    AutoresolvesExactlyWhen(doc, cs);
    AutoresolvesExactlyWhen(doc, ds);
    ScanMerges(doc, cs);
    ScanMerges(doc, ds);
    CoversAntisymmetric(ScanAll(doc, cs).clock, ScanAll(doc, ds).clock);
  }

  /**
   * A conflict with other content that the incoming revision does not supersede but the merged
   * clock does. Only such a conflict is dropped or kept depending on the order.
   */
  ghost predicate Shadowed(doc: Version, cs: seq<Version>, c: Version) {
    && c in cs
    && c.content != doc.content
    && !Newer(doc.rev, c.rev)
    && Newer(ScanAll(doc, cs).clock, c.rev)
  }

  /** The revisions that go in any order: those of the same content or already superseded. */
  ghost function Settled(doc: Version, cs: seq<Version>): set<Clock> {
    set c <- cs | c.content == doc.content || Newer(doc.rev, c.rev) :: c.rev
  }

  lemma SettledAppend(doc: Version, cs: seq<Version>, c: Version)
    ensures Settled(doc, cs + [c]) ==
      Settled(doc, cs) + (if c.content == doc.content || Newer(doc.rev, c.rev) then {c.rev} else {})
  {
    hide Newer;
    var ds := cs + [c];
    assert forall x :: x in ds <==> x in cs || x == c;
  }

  lemma {:induction false} PrunedWithoutShadow(doc: Version, cs: seq<Version>, top: Clock)
    requires Covers(top, ScanAll(doc, cs).clock)
    requires forall c <- cs :: c.content != doc.content && Newer(top, c.rev) ==> Newer(doc.rev, c.rev)
    ensures ScanAll(doc, cs).toPrune == Settled(doc, cs)
  {
    if cs != [] {
      var init, c := cs[..|cs| - 1], cs[|cs| - 1];
      var before, after := ScanAll(doc, init), ScanAll(doc, cs);
      assert Covers(before.clock, doc.rev) by {
        ScanGrows(doc, init);
      }
      assert Covers(top, before.clock) by {
        JoinIsLeastUpperBound(before.clock, c.rev, c.rev);
        CoversTransitiveFrom(top, after.clock);
      }
      assert forall x <- init :: x in cs;
      PrunedWithoutShadow(doc, init, top);
      NewerIsStrictOrder(top, before.clock, c.rev);
      NewerIsStrictOrder(before.clock, doc.rev, c.rev);
      assert c in cs && cs == init + [c];
      SettledAppend(doc, init, c);
      hide Newer, Covers, Settled;
    }
  }

  lemma {:induction false} ScanOfConcat(doc: Version, cs: seq<Version>, c: Version)
    ensures ScanAll(doc, cs + [c]) == ScanOne(ScanAll(doc, cs), doc.content, c)
  {
    assert (cs + [c])[..|cs|] == cs;
  }

  /** A conflict read first is judged against the incoming revision alone. */
  lemma {:induction false} FirstIsKept(doc: Version, c: Version, rest: seq<Version>)
    requires c.content != doc.content && !Newer(doc.rev, c.rev)
    requires forall x <- rest :: x.rev != c.rev
    ensures c.rev !in ScanAll(doc, [c] + rest).toPrune
  {
    if rest == [] {
      assert [c] + rest == [] + [c];
      ScanOfConcat(doc, [], c);
    } else {
      var init, x := rest[..|rest| - 1], rest[|rest| - 1];
      assert [c] + rest == ([c] + init) + [x];
      FirstIsKept(doc, c, init);
      ScanOfConcat(doc, [c] + init, x);
    }
  }

  lemma ShadowedMakesOrderMatter(doc: Version, cs: seq<Version>, c: Version)
    returns (front: seq<Version>, back: seq<Version>)
    requires DistinctRevs(cs) && Shadowed(doc, cs, c)
    ensures multiset(front) == multiset(cs) == multiset(back)
    ensures c.rev !in ScanAll(doc, front).toPrune && c.rev in ScanAll(doc, back).toPrune
  {
    var i :| 0 <= i < |cs| && cs[i] == c;
    var rest := cs[..i] + cs[i + 1..];
    front, back := [c] + rest, rest + [c];
    assert cs == cs[..i] + [c] + cs[i + 1..];
    FirstIsKept(doc, c, rest);
    assert ScanAll(doc, back) == ScanOne(ScanAll(doc, rest), doc.content, c) by {
      ScanOfConcat(doc, rest, c);
    }
    assert ScanAll(doc, back).clock == ScanAll(doc, cs).clock by {
      PrunedDocIgnoresOrder("", doc, cs, back);
    }
  }

  lemma UnshadowedIgnoresOrder(doc: Version, cs: seq<Version>, ds: seq<Version>)
    requires forall c <- cs :: !Shadowed(doc, cs, c)
    requires multiset(ds) == multiset(cs)
    ensures ScanAll(doc, ds).toPrune == ScanAll(doc, cs).toPrune
  {
    assert forall x :: x in cs <==> x in multiset(cs);
    assert forall x :: x in ds <==> x in multiset(ds);
    var top := ScanAll(doc, cs).clock;
    assert top == ScanAll(doc, ds).clock by {
      PrunedDocIgnoresOrder("", doc, cs, ds);
    }
    assert forall c <- cs :: c.content != doc.content && Newer(top, c.rev) ==> Newer(doc.rev, c.rev);
    PrunedWithoutShadow(doc, cs, top);
    PrunedWithoutShadow(doc, ds, top);
  }

  /** The set of pruned revisions is the same in every order exactly when nothing is shadowed. */
  lemma PrunedSetIgnoresOrderExactlyWhen(doc: Version, cs: seq<Version>)
    requires DistinctRevs(cs)
    ensures (forall ds :: multiset(ds) == multiset(cs) ==> ScanAll(doc, ds).toPrune == ScanAll(doc, cs).toPrune)
      <==> (forall c :: !Shadowed(doc, cs, c))
  {
    if c :| Shadowed(doc, cs, c) {
      var front, back := ShadowedMakesOrderMatter(doc, cs, c);
      assert ScanAll(doc, front).toPrune != ScanAll(doc, back).toPrune;
    } else {
      forall ds | multiset(ds) == multiset(cs) ensures ScanAll(doc, ds).toPrune == ScanAll(doc, cs).toPrune {
        UnshadowedIgnoresOrder(doc, cs, ds);
      }
    }
  }

  lemma {:induction false} MergedClockGrows(doc: Version, cs: seq<Version>, k: nat)
    requires k <= |cs|
    ensures Covers(MergedClock(doc, cs), MergedClock(doc, cs[..k])) && Covers(MergedClock(doc, cs), doc.rev)
  {
    if k == |cs| {
      assert cs[..k] == cs;
      ScanClockIsMerged(doc, cs);
      ScanGrows(doc, cs);
    } else {
      var init, c := cs[..|cs| - 1], cs[|cs| - 1];
      MergedClockGrows(doc, init, k);
      assert init[..k] == cs[..k];
      JoinIsLeastUpperBound(MergedClock(doc, init), c.rev, c.rev);
      CoversTransitiveFrom(MergedClock(doc, cs), MergedClock(doc, init));
    }
  }

  lemma SameMembers(cs: seq<Version>, ds: seq<Version>)
    requires multiset(cs) == multiset(ds)
    ensures forall c :: c in cs <==> c in ds
  {
    assert forall c :: c in cs <==> c in multiset(cs);
    assert forall c :: c in ds <==> c in multiset(ds);
  }

  /** A conflict that is not shadowed goes in every order or in none. */
  lemma UnshadowedGoesExactlyWhen(doc: Version, cs: seq<Version>, ds: seq<Version>, c: Version)
    requires DistinctRevs(cs) && multiset(ds) == multiset(cs) && c in cs && !Shadowed(doc, cs, c)
    ensures RevGoes(doc, ds, c.rev) <==> c.content == doc.content || Newer(doc.rev, c.rev)
  {
    SameMembers(cs, ds);
    PrunedDocIgnoresOrder("", doc, cs, ds);
    ScanClockIsMerged(doc, cs);
    ScanClockIsMerged(doc, ds);
    var top := MergedClock(doc, cs);
    forall i | 0 <= i < |ds| && ds[i].rev == c.rev
      ensures Goes(doc, ds, i) <==> c.content == doc.content || Newer(doc.rev, c.rev)
    {
      assert ds[i] in cs;
      assert ds[i] == c;
      MergedClockGrows(doc, ds, i);
      MergedClockGrows(doc, ds[..i], 0);
      NewerIsStrictOrder(MergedClock(doc, ds[..i]), doc.rev, c.rev);
      NewerIsStrictOrder(top, MergedClock(doc, ds[..i]), c.rev);
    }
    var k :| 0 <= k < |ds| && ds[k] == c;
  }
}
