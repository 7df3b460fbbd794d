/** Going through the log from its end, as both databases do to find what has changed. */
module LogScan {
  import opened ChangeLog

  function Reverse<T>(s: seq<T>): (r: seq<T>)
    ensures |r| == |s|
  {
    if s == [] then [] else [s[|s| - 1]] + Reverse(s[..|s| - 1])
  }

  /** The rows above `g` have been visited: `rows` holds the last one of each document, newest first. */
  ghost predicate Collected(log: seq<Entry>, since: nat, g: nat, seen: set<string>, rows: seq<Change>)
    requires g <= |log|
  {
    && ChangesUpTo(log, since, g) + Reverse(rows) == Changes(log, since)
    && (forall d :: d in seen <==> g < LastGen(log, d))
    && (if rows == [] then g == |log| else PointOf(rows[0]) == Tip(log))
  }

  /** Going one row back in the log. */
  lemma CollectRow(log: seq<Entry>, since: nat, g: nat, seen: set<string>, rows: seq<Change>)
    requires since < g <= |log| && Collected(log, since, g, seen, rows)
    ensures var row := log[g - 1];
      var c := Change(row.docId, g, row.transId);
      if row.docId in seen then Collected(log, since, g - 1, seen, rows)
      else Collected(log, since, g - 1, seen + {row.docId}, rows + [c])
  {
    var c := Change(log[g - 1].docId, g, log[g - 1].transId);
    hide LastGen, Reverse, ChangesUpTo;
    LastGenReaches(log, g);
    ReverseAppend(rows, c);
    OneRowBack(log, since, g);
    assert ChangesUpTo(log, since, g - 1) + [c] + Reverse(rows) == ChangesUpTo(log, since, g - 1) + ([c] + Reverse(rows));
    assert c.docId !in seen <==> LastGen(log, c.docId) == g;
  }

  lemma OneRowBack(log: seq<Entry>, since: nat, g: nat)
    requires since < g <= |log|
    ensures var c, earlier := Change(log[g - 1].docId, g, log[g - 1].transId), ChangesUpTo(log, since, g - 1);
      ChangesUpTo(log, since, g) == if LastGen(log, c.docId) == g then earlier + [c] else earlier
  {}

  lemma NothingCollected(log: seq<Entry>, since: nat)
    ensures Collected(log, since, |log|, {}, [])
  {
    assert Reverse<Change>([]) == [];
  }

  /** At the end of the scan the rows, turned round, are the changes. */
  lemma AllCollected(log: seq<Entry>, since: nat, g: nat, seen: set<string>, rows: seq<Change>)
    requires g <= since && g <= |log| && Collected(log, since, g, seen, rows)
    ensures Reverse(rows) == Changes(log, since)
  {
    NoRowBefore(log, since, g);
    hide Reverse, Changes;
    assert [] + Reverse(rows) == Reverse(rows);
  }

  lemma NoRowBefore(log: seq<Entry>, since: nat, g: nat)
    requires g <= since && g <= |log|
    ensures ChangesUpTo(log, since, g) == []
  {}

  lemma ReverseAppend<T>(s: seq<T>, x: T)
    ensures Reverse(s + [x]) == [x] + Reverse(s)
  {
    assert (s + [x])[..|s|] == s;
  }

  /** A row is the last of its document exactly when no later row is. */
  lemma LastGenReaches(log: seq<Entry>, g: nat)
    requires 0 < g <= |log|
    ensures g <= LastGen(log, log[g - 1].docId)
    ensures forall d :: g - 1 < LastGen(log, d) <==> g < LastGen(log, d) || d == log[g - 1].docId
  {}
}
