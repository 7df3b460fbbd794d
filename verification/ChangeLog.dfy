/** The transaction log and the list of changes computed from it. */
module ChangeLog {

  /** One row of the transaction log; the generation of a row is its position, from 1. */
  datatype Entry = Entry(docId: string, transId: string)

  /** How far a replica is known to have got. */
  datatype SyncPoint = SyncPoint(gen: nat, transId: string)

  datatype Change = Change(docId: string, gen: nat, transId: string)

  function PointOf(c: Change): SyncPoint {
    SyncPoint(c.gen, c.transId)
  }

  const START := SyncPoint(0, "")

  /** The generation of the last change of a document, 0 if it was never written. */
  function LastGen(log: seq<Entry>, docId: string): (g: nat)
    ensures g <= |log|
    ensures g > 0 ==> log[g - 1].docId == docId
    ensures forall k :: g <= k < |log| ==> log[k].docId != docId
  {
    if log == [] then 0
    else if log[|log| - 1].docId == docId then |log|
    else LastGen(log[..|log| - 1], docId)
  }

  function TransIdAt(log: seq<Entry>, gen: nat): string
    requires gen <= |log|
  {
    if gen == 0 then "" else log[gen - 1].transId
  }

  /** The generation a log has reached. */
  function Tip(log: seq<Entry>): SyncPoint {
    SyncPoint(|log|, TransIdAt(log, |log|))
  }

  /** A sync point that really is on the log: what validation checks. */
  predicate OnLog(log: seq<Entry>, p: SyncPoint) {
    p.gen <= |log| && p.transId == TransIdAt(log, p.gen)
  }

  /**
   * The rows numbered (since, upTo] of the log that are the last ones of their document,
   * in the order of the log.
   */
  function ChangesUpTo(log: seq<Entry>, since: nat, upTo: nat): seq<Change>
    requires upTo <= |log|
  {
    if upTo <= since then []
    else
      var earlier := ChangesUpTo(log, since, upTo - 1);
      var row := log[upTo - 1];
      if LastGen(log, row.docId) == upTo then earlier + [Change(row.docId, upTo, row.transId)] else earlier
  }

  function Changes(log: seq<Entry>, since: nat): seq<Change> {
    ChangesUpTo(log, since, |log|)
  }

  /** Where a document stands in a list of changes; the length of the list if it is not there. */
  function IndexOf(cs: seq<Change>, docId: string): (k: nat)
    ensures k <= |cs|
    ensures k < |cs| ==> cs[k].docId == docId
    ensures forall j :: 0 <= j < k ==> cs[j].docId != docId
  {
    if cs == [] then 0 else if cs[0].docId == docId then 0 else 1 + IndexOf(cs[1..], docId)
  }

  ghost predicate Ascending(cs: seq<Change>) {
    forall i, j :: 0 <= i < j < |cs| ==> cs[i].gen < cs[j].gen
  }

  ghost predicate DistinctDocs(cs: seq<Change>) {
    forall i, j :: 0 <= i < j < |cs| ==> cs[i].docId != cs[j].docId
  }

  lemma IndexIsUnique(cs: seq<Change>, k: nat)
    requires DistinctDocs(cs) && k < |cs|
    ensures IndexOf(cs, cs[k].docId) == k
  {}

  lemma LastGenAppend(log: seq<Entry>, e: Entry, docId: string)
    ensures LastGen(log + [e], docId) == if docId == e.docId then |log| + 1 else LastGen(log, docId)
  {
    assert (log + [e])[..|log|] == log;
  }

  // ---------- what the list of changes contains ----------

  ghost predicate ListsChanges(cs: seq<Change>, log: seq<Entry>, since: nat, upTo: nat) {
    && Ascending(cs)
    && DistinctDocs(cs)
    && (forall c <- cs :: && since < c.gen <= upTo <= |log|
                          && c.gen == LastGen(log, c.docId)
                          && c.transId == TransIdAt(log, c.gen))
  }

  lemma {:induction false} ChangesAreListed(log: seq<Entry>, since: nat, upTo: nat)
    requires upTo <= |log|
    ensures ListsChanges(ChangesUpTo(log, since, upTo), log, since, upTo)
  {
    hide LastGen;
    if since < upTo {
      ChangesAreListed(log, since, upTo - 1);
      var earlier, cs := ChangesUpTo(log, since, upTo - 1), ChangesUpTo(log, since, upTo);
      if cs != earlier {
        forall i | 0 <= i < |earlier|
          ensures earlier[i].gen < upTo && earlier[i].docId != log[upTo - 1].docId
        {
          assert earlier[i] in earlier;
        }
      }
    }
  }

  lemma {:induction false} NoChangeIsMissing(log: seq<Entry>, since: nat, upTo: nat, docId: string)
    requires upTo <= |log|
    requires since < LastGen(log, docId) <= upTo
    ensures Change(docId, LastGen(log, docId), TransIdAt(log, LastGen(log, docId))) in ChangesUpTo(log, since, upTo)
  {
    if LastGen(log, docId) < upTo {
      NoChangeIsMissing(log, since, upTo - 1, docId);
    }
  }

  /**
   * Exactly one entry for each document changed after `since`, with the generation and the
   * transaction id of its last change, in strictly ascending order.
   */
  lemma ChangesSpec(log: seq<Entry>, since: nat)
    ensures var cs := Changes(log, since);
      && Ascending(cs)
      && DistinctDocs(cs)
      && (forall c :: c in cs <==>
           && since < c.gen
           && c.gen == LastGen(log, c.docId)
           && c.transId == TransIdAt(log, c.gen))
  {
    var cs := Changes(log, since);
    ChangesAreListed(log, since, |log|);
    forall c: Change | since < c.gen && c.gen == LastGen(log, c.docId) && c.transId == TransIdAt(log, c.gen)
      ensures c in cs
    {
      NoChangeIsMissing(log, since, |log|, c.docId);
    }
  }

  /** There is nothing to list exactly if no row is newer. */
  lemma NoChangesExactlyWhen(log: seq<Entry>, since: nat)
    ensures Changes(log, since) == [] <==> |log| <= since
  {
    ChangesSpec(log, since);
    if since < |log| {
      var row := log[|log| - 1];
      assert LastGen(log, row.docId) == |log|;
      hide LastGen;
      assert Change(row.docId, |log|, TransIdAt(log, |log|)) in Changes(log, since);
    }
  }

  /** The rows of the log, by their generation. */
  lemma PointsExactly(log: seq<Entry>, p: SyncPoint)
    ensures OnLog(log, p) <==>
      (p == SyncPoint(0, "") || (0 < p.gen <= |log| && log[p.gen - 1].transId == p.transId))
    ensures Tip(log) == SyncPoint(|log|, if log == [] then "" else log[|log| - 1].transId)
  {}

  lemma ChangedDocIsListed(log: seq<Entry>, since: nat, docId: string)
    requires since < LastGen(log, docId)
    ensures var cs := Changes(log, since);
      var k := IndexOf(cs, docId);
      k < |cs| && cs[k].gen == LastGen(log, docId)
  {
    ChangesSpec(log, since);
    var cs := Changes(log, since);
    var c := Change(docId, LastGen(log, docId), TransIdAt(log, LastGen(log, docId)));
    assert c in cs;
    var k :| 0 <= k < |cs| && cs[k] == c;
    IndexIsUnique(cs, k);
  }
}
