/** Vector clocks: the revision identifiers of documents. */
module VectorClocks {
  /** One counter per replica that ever wrote the document. */
  type Clock = map<string, int>

  const ZERO: Clock := map[]

  /** Every counter of `b` is present in `a` and at least as high there. */
  predicate Covers(a: Clock, b: Clock) {
    forall k <- b.Keys :: k in a && b[k] <= a[k]
  }

  predicate Newer(a: Clock, b: Clock) {
    Covers(a, b) && a != b
  }

  function Count(a: Clock, uid: string): int {
    if uid in a then a[uid] else 0
  }

  function Increment(a: Clock, uid: string): Clock {
    a[uid := Count(a, uid) + 1]
  }

  function Join(a: Clock, b: Clock): Clock {
    map k | k in a.Keys + b.Keys ::
      if k !in a then b[k] else if k !in b then a[k] else if a[k] < b[k] then b[k] else a[k]
  }

  /** Counters are allocated upwards from 1, so an absent counter is below any present one. */
  predicate Positive(a: Clock) {
    forall k <- a.Keys :: 1 <= a[k]
  }

  // ---------- the order ----------

  lemma CoversTransitive(a: Clock, b: Clock, c: Clock)
    requires Covers(a, b) && Covers(b, c)
    ensures Covers(a, c)
  {
    forall k | k in c ensures k in a && c[k] <= a[k] {
      assert k in b;
    }
  }

  lemma CoversAntisymmetric(a: Clock, b: Clock)
    requires Covers(a, b) && Covers(b, a)
    ensures a == b
  {
    assert forall k :: k in a <==> k in b;
    forall k | k in a ensures a[k] == b[k] {
      assert k in b;
    }
  }

  /** `Newer` is a strict partial order, and mixes with `Covers`. */
  lemma NewerIsStrictOrder(a: Clock, b: Clock, c: Clock)
    ensures !Newer(a, a)
    ensures Newer(a, b) ==> !Newer(b, a)
    ensures Newer(a, b) && Covers(b, c) ==> Newer(a, c)
    ensures Covers(a, b) && Newer(b, c) ==> Newer(a, c)
  {
    if Covers(a, b) && Covers(b, a) {
      CoversAntisymmetric(a, b);
    }
    if Covers(a, b) && Covers(b, c) {
      CoversTransitive(a, b, c);
      if a == c {
        CoversAntisymmetric(a, b);
      }
    }
  }

  /** A replica that a clock does not mention ranks below every counter, however low. */
  lemma AbsentIsBelowAnyCounter(a: Clock, uid: string, n: int)
    requires uid !in a
    ensures Newer(a[uid := n], a) && !Covers(a, a[uid := n])
  {
    assert uid in a[uid := n].Keys;
  }

  /** `Join` is the least upper bound. */
  lemma JoinIsLeastUpperBound(a: Clock, b: Clock, c: Clock)
    ensures Covers(Join(a, b), a) && Covers(Join(a, b), b)
    ensures Covers(c, a) && Covers(c, b) ==> Covers(c, Join(a, b))
  {
    if Covers(c, a) && Covers(c, b) {
      forall k | k in Join(a, b) ensures k in c && Join(a, b)[k] <= c[k] {
        assert k in a.Keys || k in b.Keys;
      }
    }
  }

  lemma JoinAbsorbs(a: Clock, b: Clock)
    requires Covers(a, b)
    ensures Join(a, b) == a
  {
    assert forall k :: k in Join(a, b) <==> k in a;
    forall k | k in a ensures Join(a, b)[k] == a[k] {
      assert k in b.Keys ==> b[k] <= a[k];
    }
  }

  lemma IncrementIsNewer(a: Clock, uid: string)
    ensures Newer(Increment(a, uid), a)
    ensures Count(Increment(a, uid), uid) == Count(a, uid) + 1
  {
    assert Increment(a, uid)[uid] == Count(a, uid) + 1;
  }

  lemma PositiveIsKept(a: Clock, b: Clock, uid: string)
    requires Positive(a) && Positive(b)
    ensures Positive(Join(a, b)) && Positive(Increment(a, uid))
  {
    assert forall k <- Join(a, b).Keys :: k in a.Keys || k in b.Keys;
    assert forall k <- Increment(a, uid).Keys :: k in a.Keys || k == uid;
  }

  // ---------- counter by counter ----------

  /** At least as high everywhere, and higher or new somewhere. */
  lemma NewerExactlyWhen(a: Clock, b: Clock)
    ensures Newer(a, b) <==>
      && (forall k <- b.Keys :: k in a && b[k] <= a[k])
      && (exists k <- a.Keys :: k !in b || b[k] < a[k])
  {
    if Newer(a, b) {
      if forall k <- a.Keys :: k in b && a[k] <= b[k] {
        CoversAntisymmetric(a, b);
      }
    }
  }

  /** An increment adds one to one counter, counting an absent one as 0, and touches no other. */
  lemma IncrementExactly(a: Clock, uid: string, k: string)
    ensures var n := Increment(a, uid);
      && (k in n <==> k in a || k == uid)
      && (k != uid && k in a ==> n[k] == a[k])
      && n[uid] == if uid in a then a[uid] + 1 else 1
  {}

  /** A join has every counter of either, at the higher of the two values. */
  lemma JoinExactly(a: Clock, b: Clock, k: string)
    ensures var j := Join(a, b);
      && (k in j <==> k in a || k in b)
      && (k in a ==> a[k] <= j[k])
      && (k in b ==> b[k] <= j[k])
      && (k in j ==> (k in a && j[k] == a[k]) || (k in b && j[k] == b[k]))
  {}

  // ---------- the class ----------

  /** Mutable clock with the dictionary of counters as its only field. */
  class VectorClockRev {
    var values: Clock

    constructor (values: Clock)
      ensures this.values == values
    {
      this.values := values;
    }

    /** The loop visits the dictionary in any order and consumes a copy of the other one. */
    method IsNewer(other: VectorClockRev) returns (newer: bool)
      ensures newer == Newer(values, other.values)
    {
      if values == map[] {
        return false;
      }
      if other.values == map[] {
        assert exists k :: k in values;
        return true;
      }
      var thisIsNewer := false;
      var otherExpand := other.values;
      var todo := values.Keys;
      while todo != {}
        invariant todo <= values.Keys
        invariant otherExpand.Keys == other.values.Keys - (values.Keys - todo)
        invariant forall k <- otherExpand.Keys :: otherExpand[k] == other.values[k]
        invariant forall k <- values.Keys - todo :: k in other.values ==> other.values[k] <= values[k]
        invariant thisIsNewer <==>
          exists k <- values.Keys - todo :: k !in other.values || other.values[k] != values[k]
      {
        var key :| key in todo;
        todo := todo - {key};
        if key in otherExpand {
          var otherValue := otherExpand[key];
          otherExpand := otherExpand - {key};
          if otherValue > values[key] {
            return false;
          } else if otherValue < values[key] {
            thisIsNewer := true;
          }
        } else {
          thisIsNewer := true;
        }
      }
      if otherExpand != map[] {
        assert exists k :: k in otherExpand;
        return false;
      }
      assert otherExpand.Keys == {};
      assert other.values.Keys - values.Keys == {};
      forall k <- other.values.Keys ensures k in values && other.values[k] <= values[k] {
        assert k !in other.values.Keys - values.Keys;
      }
      return thisIsNewer;
    }

    method IncrementFor(uid: string)
      modifies this
      ensures values == Increment(old(values), uid)
    {
      values := values[uid := (if uid in values then values[uid] else 0) + 1];
    }

    method Maximize(other: VectorClockRev)
      modifies this
      ensures values == Join(old(values), old(other.values))
    {
      ghost var mine := values;
      var theirs := other.values;
      var todo := theirs.Keys;
      while todo != {}
        invariant todo <= theirs.Keys
        invariant values.Keys == mine.Keys + (theirs.Keys - todo)
        invariant forall k <- values.Keys ::
          values[k] == if k in theirs.Keys - todo then Join(mine, theirs)[k] else mine[k]
      {
        var uid :| uid in todo;
        todo := todo - {uid};
        if uid !in values {
          values := values[uid := theirs[uid]];
        } else if values[uid] < theirs[uid] {
          values := values[uid := theirs[uid]];
        }
      }
      assert values == Join(mine, theirs);
    }
  }
}
