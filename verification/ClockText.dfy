/** Revisions as text: printing a vector clock and reading it back. */
module ClockText {
  import opened Texts
  import opened VectorClocks
  import opened Wrappers

  // ---------- printing ----------

  function PrintOne(uid: string, n: int): string {
    uid + ":" + IntToString(n)
  }

  function PrintEach(uids: seq<string>, values: Clock): (parts: seq<string>)
    requires forall uid <- uids :: uid in values
    ensures |parts| == |uids|
  {
    if uids == [] then []
    else
      var init, last := uids[..|uids| - 1], uids[|uids| - 1];
      PrintEach(init, values) + [PrintOne(last, values[last])]
  }

  /** The counters in the order of the replica uids. */
  function AsStr(values: Clock): string {
    if values == map[] then "" else JoinText(PrintEach(Sorted(values.Keys), values), '|')
  }

  lemma {:induction false} PrintEachExactly(uids: seq<string>, values: Clock)
    requires forall uid <- uids :: uid in values
    ensures forall i :: 0 <= i < |uids| ==> PrintEach(uids, values)[i] == uids[i] + ":" + IntToString(values[uids[i]])
  {
    if uids != [] {
      PrintEachExactly(uids[..|uids| - 1], values);
    }
  }

  ghost predicate IsListing(parts: seq<string>, uids: seq<string>, values: Clock) {
    && |parts| == |uids|
    && (forall uid :: uid in uids <==> uid in values)
    && (forall i, j :: 0 <= i < j < |uids| ==> LexLess(uids[i], uids[j]))
    && forall i :: 0 <= i < |uids| ==> uids[i] in values && parts[i] == uids[i] + ":" + IntToString(values[uids[i]])
  }

  /** A revision lists a uid and a number for every counter, by increasing uid, with bars in between. */
  lemma PrintedExactly(values: Clock)
    requires values != map[]
    ensures exists uids, parts ::
      parts != [] && IsListing(parts, uids, values) && AsStr(values) == JoinText(parts, '|')
  {
    hide IntToString, LexLess;
    var uids := Sorted(values.Keys);
    PrintEachExactly(uids, values);
    var parts := PrintEach(uids, values);
    assert uids != [] && AsStr(values) == JoinText(parts, '|');
    assert forall uid :: uid in uids <==> uid in values;
    assert Increasing(uids);
    hide AsStr, JoinText, PrintEach, Sorted;
    assert IsListing(parts, uids, values);
  }

  // ---------- reading ----------

  function ExpandOne(part: string): Option<(string, int)> {
    var fields := Split(part, ':');
    if |fields| != 2 || ParseInt(fields[1]).None? then None
    else Some((fields[0], ParseInt(fields[1]).value))
  }

  /** A later counter of the same replica replaces an earlier one. */
  function ExpandParts(parts: seq<string>): Option<Clock> {
    if parts == [] then Some(map[])
    else
      var before, last := ExpandParts(parts[..|parts| - 1]), ExpandOne(parts[|parts| - 1]);
      if before.None? || last.None? then None
      else Some(before.value[last.value.0 := last.value.1])
  }

  /** `None` for a text that is not a revision; no text at all is the empty clock. */
  function Expanded(value: Option<string>): Option<Clock> {
    if value.None? then Some(map[]) else ExpandParts(Split(value.value, '|'))
  }

  lemma {:induction false} BadPartSpoilsAll(parts: seq<string>, k: nat)
    requires k < |parts| && ExpandParts(parts[..k + 1]).None?
    ensures ExpandParts(parts).None?
  {
    if k + 1 < |parts| {
      var init := parts[..|parts| - 1];
      assert init[..k + 1] == parts[..k + 1];
      BadPartSpoilsAll(init, k);
    } else {
      assert parts[..k + 1] == parts;
    }
  }

  method Expand(value: Option<string>) returns (r: Option<Clock>)
    ensures r == Expanded(value)
  {
    var result: Clock := map[];
    if value.None? {
      return Some(result);
    }
    var parts := Split(value.value, '|');
    for i := 0 to |parts|
      invariant ExpandParts(parts[..i]) == Some(result)
    {
      assert parts[..i + 1][..i] == parts[..i];
      var fields := Split(parts[i], ':');
      if |fields| != 2 || ParseInt(fields[1]).None? {
        BadPartSpoilsAll(parts, i);
        return None;
      }
      result := result[fields[0] := ParseInt(fields[1]).value];
    }
    assert parts[..|parts|] == parts;
    return Some(result);
  }

  /** A uid and a number, with exactly one colon between them. */
  ghost predicate IsCounter(part: string, uid: string, n: int) {
    ':' !in uid && exists digits: string :: ':' !in digits && part == uid + ":" + digits && ParseInt(digits) == Some(n)
  }

  ghost predicate IsSomeCounter(part: string) {
    exists uid, n :: IsCounter(part, uid, n)
  }

  lemma ExpandOneExactly(part: string, uid: string, n: int)
    ensures ExpandOne(part) == Some((uid, n)) <==> IsCounter(part, uid, n)
  {
    hide ParseInt;
    if digits: string :| ':' !in digits && ':' !in uid && part == uid + ":" + digits && ParseInt(digits) == Some(n) {
      assert part == uid + [':'] + digits;
      SplitFirst(uid, ':', digits);
      SplitWithout(digits, ':');
    }
    if ExpandOne(part) == Some((uid, n)) {
      var fields := Split(part, ':');
      JoinSplit(part, ':');
      SplitParts(part, ':');
      assert fields[0] in fields && fields[1] in fields;
      assert JoinText(fields, ':') == fields[0] + [':'] + fields[1];
      assert part == uid + ":" + fields[1];
    }
  }

  lemma ReadPartIsACounter(part: string)
    ensures ExpandOne(part).Some? <==> IsSomeCounter(part)
    ensures forall uid, n :: IsCounter(part, uid, n) <==> ExpandOne(part) == Some((uid, n))
  {
    hide IsCounter, ExpandOne;
    forall uid, n ensures ExpandOne(part) == Some((uid, n)) <==> IsCounter(part, uid, n) {
      ExpandOneExactly(part, uid, n);
    }
    if ExpandOne(part).Some? {
      var one := ExpandOne(part).value;
      assert IsCounter(part, one.0, one.1);
    }
  }

  lemma OnePartMore(parts: seq<string>)
    requires parts != []
    ensures var before, last := ExpandParts(parts[..|parts| - 1]), ExpandOne(parts[|parts| - 1]);
      ExpandParts(parts) ==
        if before.None? || last.None? then None else Some(before.value[last.value.0 := last.value.1])
  {}

  /** Parts are read exactly if each is a counter. */
  lemma {:induction false} PartsAreReadExactlyWhen(parts: seq<string>)
    ensures ExpandParts(parts).Some? <==> forall part <- parts :: IsSomeCounter(part)
  {
    if parts != [] {
      var last := |parts| - 1;
      PartsAreReadExactlyWhen(parts[..last]);
      ReadPartIsACounter(parts[last]);
      OnePartMore(parts);
      hide *;
      assert parts == parts[..last] + [parts[last]];
    }
  }

  /** Of two counters of one replica the last one stays. */
  lemma {:induction false} CountersAreRead(parts: seq<string>, uid: string, n: int)
    requires ExpandParts(parts).Some?
    ensures var clock := ExpandParts(parts).value;
      IsCounterOf(parts, uid, n) <==> uid in clock && clock[uid] == n
  {
    if parts != [] {
      var last := |parts| - 1;
      OnePartMore(parts);
      CountersAreRead(parts[..last], uid, n);
      ReadPartIsACounter(parts[last]);
      CounterOfOneMore(parts, uid, n);
      hide *;
    }
  }

  lemma CounterOfOneMore(parts: seq<string>, uid: string, n: int)
    requires parts != []
    ensures var last := |parts| - 1;
      IsCounterOf(parts, uid, n) <==>
        || IsCounter(parts[last], uid, n)
        || (IsCounterOf(parts[..last], uid, n) && forall m :: !IsCounter(parts[last], uid, m))
  {
    hide IsCounter;
    var last := |parts| - 1;
    assert IsLastCounter(parts, last, uid, n) <==> IsCounter(parts[last], uid, n);
    forall k: nat | k < last
      ensures IsLastCounter(parts, k, uid, n) <==>
        IsLastCounter(parts[..last], k, uid, n) && forall m :: !IsCounter(parts[last], uid, m)
    {
      LastCounterStays(parts, k, uid, n);
    }
    hide IsLastCounter;
  }

  ghost predicate IsCounterOf(parts: seq<string>, uid: string, n: int) {
    exists k :: 0 <= k < |parts| && IsLastCounter(parts, k, uid, n)
  }

  ghost predicate IsLastCounter(parts: seq<string>, k: nat, uid: string, n: int)
    requires k < |parts|
  {
    IsCounter(parts[k], uid, n) && forall j, m :: k < j < |parts| ==> !IsCounter(parts[j], uid, m)
  }

  lemma LastCounterStays(parts: seq<string>, k: nat, uid: string, n: int)
    requires k < |parts| - 1
    ensures var last := |parts| - 1;
      IsLastCounter(parts, k, uid, n) <==>
        IsLastCounter(parts[..last], k, uid, n) && forall m :: !IsCounter(parts[last], uid, m)
  {
    hide IsCounter;
    var init := parts[..|parts| - 1];
    assert forall j :: 0 <= j < |init| ==> init[j] == parts[j];
  }

  /** Reading takes a text apart at its bars. */
  lemma ReadExactly(parts: seq<string>)
    requires parts != [] && forall p <- parts :: '|' !in p
    ensures Expanded(Some(JoinText(parts, '|'))) == ExpandParts(parts)
    ensures Expanded(None) == Some(map[])
  {
    SplitJoin(parts, '|');
    hide Split, JoinText, ExpandParts;
  }

  // ---------- the round trip ----------

  predicate Printable(uid: string) {
    ':' !in uid && '|' !in uid
  }

  lemma NumbersAreTame(n: int)
    ensures ':' !in IntToString(n) && '|' !in IntToString(n)
  {
    var s := Decimal(if n < 0 then -n else n);
    assert forall c <- s :: IsDigit(c);
  }

  lemma PartIsReadBack(uid: string, n: int)
    requires Printable(uid)
    ensures ExpandOne(PrintOne(uid, n)) == Some((uid, n))
    ensures '|' !in PrintOne(uid, n)
  {
    NumbersAreTame(n);
    IntRoundTrip(n);
    SplitFirst(uid, ':', IntToString(n));
    SplitWithout(IntToString(n), ':');
    assert PrintOne(uid, n) == uid + [':'] + IntToString(n);
    hide ParseInt, IntToString, Split;
  }

  lemma {:induction false} PartsAreTame(uids: seq<string>, values: Clock)
    requires forall uid <- uids :: uid in values && Printable(uid)
    ensures forall p <- PrintEach(uids, values) :: '|' !in p
  {
    if uids != [] {
      var init, uid := uids[..|uids| - 1], uids[|uids| - 1];
      PartsAreTame(init, values);
      PartIsReadBack(uid, values[uid]);
      hide PrintOne, Printable;
    }
  }

  lemma ExpandOneMore(parts: seq<string>, part: string, uid: string, n: int, before: Clock)
    requires ExpandParts(parts) == Some(before) && ExpandOne(part) == Some((uid, n))
    ensures ExpandParts(parts + [part]) == Some(before[uid := n])
  {
    assert (parts + [part])[..|parts|] == parts;
    hide ExpandOne;
  }

  function Picked(uids: seq<string>, values: Clock): Clock
    requires forall uid <- uids :: uid in values
  {
    map uid <- uids :: values[uid]
  }

  lemma PickedOneMore(uids: seq<string>, values: Clock)
    requires uids != [] && forall uid <- uids :: uid in values
    ensures var n := |uids| - 1;
      Picked(uids, values) == Picked(uids[..n], values)[uids[n] := values[uids[n]]]
  {
    var n := |uids| - 1;
    assert uids == uids[..n] + [uids[n]];
  }

  lemma {:induction false} PartsAreReadBack(uids: seq<string>, values: Clock)
    requires forall uid <- uids :: uid in values && Printable(uid)
    ensures ExpandParts(PrintEach(uids, values)) == Some(Picked(uids, values))
  {
    if uids != [] {
      var init, uid := uids[..|uids| - 1], uids[|uids| - 1];
      PartsAreReadBack(init, values);
      PartIsReadBack(uid, values[uid]);
      PickedOneMore(uids, values);
      hide PrintOne, ExpandOne, Printable, Picked;
      ExpandOneMore(PrintEach(init, values), PrintOne(uid, values[uid]), uid, values[uid], Picked(init, values));
      hide ExpandParts;
    }
  }

  /** Whatever reading accepts, the replica uids in it have no separator in them. */
  lemma {:induction false} ReadUidsArePrintable(parts: seq<string>)
    requires forall p <- parts :: '|' !in p
    ensures ExpandParts(parts).Some? ==> forall uid <- ExpandParts(parts).value.Keys :: Printable(uid)
  {
    if parts != [] {
      var last := parts[|parts| - 1];
      ReadUidsArePrintable(parts[..|parts| - 1]);
      SplitParts(last, ':');
      assert last in parts;
      assert Split(last, ':')[0] in Split(last, ':');
    }
  }

  lemma EmptyIsNotRead()
    ensures Expanded(Some("")) == None
  {
    assert Split("", '|') == [""] && [""][..0] == [];
    assert ExpandOne("") == None;
  }

  lemma ReadClockIsPrintable(text: string)
    ensures Expanded(Some(text)).Some? ==> forall uid <- Expanded(Some(text)).value.Keys :: Printable(uid)
  {
    SplitParts(text, '|');
    ReadUidsArePrintable(Split(text, '|'));
    hide Printable, ExpandParts, Split;
  }

  lemma PrintedClockIsReadBack(values: Clock)
    requires values != map[] && forall uid <- values.Keys :: Printable(uid)
    ensures Expanded(Some(AsStr(values))) == Some(values)
  {
    var uids := Sorted(values.Keys);
    PartsAreTame(uids, values);
    PartsAreReadBack(uids, values);
    assert Picked(uids, values) == values;
    assert uids != [] && PrintEach(uids, values) != [];
    hide Picked, Printable, PrintEach, ExpandParts, Sorted;
    SplitJoin(PrintEach(uids, values), '|');
    hide Split, JoinText;
  }

  /** A clock is read back as itself exactly when it is not empty and no uid has a separator in it. */
  lemma PrintedClockIsReadBackExactlyWhen(values: Clock)
    ensures Expanded(Some(AsStr(values))) == Some(values)
      <==> values != map[] && forall uid <- values.Keys :: Printable(uid)
  {
    EmptyIsNotRead();
    ReadClockIsPrintable(AsStr(values));
    if values != map[] && forall uid <- values.Keys :: Printable(uid) {
      PrintedClockIsReadBack(values);
    }
    hide Expanded, Printable;
  }

  /** Comparing revisions as text is comparing the clocks. */
  lemma EqualTextMeansEqualClock(v: Clock, w: Clock)
    requires forall uid <- v.Keys + w.Keys :: Printable(uid)
    ensures AsStr(v) == AsStr(w) <==> v == w
  {
    PrintedClockIsReadBackExactlyWhen(v);
    PrintedClockIsReadBackExactlyWhen(w);
    hide Expanded, Printable;
  }
}
