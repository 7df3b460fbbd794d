/** Documents: parsed JSON content, versions, and the mutable document objects. */
module Documents {
  import opened VectorClocks
  import opened Wrappers

  /** Parsed JSON. Two contents are the same when their parsed values are equal. */
  datatype Json =
    | Null
    | Boolean(b: bool)
    | Integer(n: int)
    | Real(r: real)
    | Text(s: string)
    | Array(items: seq<Json>)
    | Object(fields: map<string, Json>)

  /** The content of a document; `None` is a tombstone. */
  type Content = Option<Json>

  datatype Version = Version(rev: Clock, content: Content)

  function Revs(vs: seq<Version>): set<Clock> {
    set v <- vs :: v.rev
  }

  ghost predicate DistinctRevs(vs: seq<Version>) {
    forall i, j :: 0 <= i < j < |vs| ==> vs[i].rev != vs[j].rev
  }

  /** The versions whose revision is not in `revs`, in order. */
  function Without(vs: seq<Version>, revs: set<Clock>): (kept: seq<Version>)
    ensures forall v :: v in kept <==> v in vs && v.rev !in revs
  {
    if vs == [] then []
    else
      var init := Without(vs[..|vs| - 1], revs);
      var last := vs[|vs| - 1];
      assert vs == vs[..|vs| - 1] + [last];
      if last.rev in revs then init else init + [last]
  }

  /** Filtering goes from front to back. */
  lemma WithoutOneMore(vs: seq<Version>, v: Version, revs: set<Clock>)
    ensures Without([], revs) == []
    ensures Without(vs + [v], revs) == Without(vs, revs) + if v.rev in revs then [] else [v]
  {
    assert (vs + [v])[..|vs|] == vs;
  }

  /** The object a caller holds. The database overwrites its revision and conflict flag. */
  class Document {
    const docId: string
    var rev: Option<Clock>
    var content: Content
    var hasConflicts: bool

    constructor (docId: string, rev: Option<Clock>, content: Content)
      ensures this.docId == docId && this.rev == rev && this.content == content && !hasConflicts
    {
      this.docId, this.rev, this.content, hasConflicts := docId, rev, content, false;
    }

    predicate IsTombstone()
      reads this
    {
      content.None?
    }

    method MakeTombstone()
      modifies this
      ensures IsTombstone() && rev == old(rev) && hasConflicts == old(hasConflicts)
    {
      content := None;
    }
  }

  /** The server's document carries its conflicts; `None` means they were never fetched. */
  class ServerDocument {
    const docId: string
    var rev: Option<Clock>
    var content: Content
    var hasConflicts: bool
    var conflicts: Option<seq<Version>>

    /** The flag always says whether the fetched list has any element. */
    ghost predicate Valid()
      reads this
    {
      hasConflicts <==> conflicts.Some? && conflicts.value != []
    }

    constructor (docId: string, rev: Option<Clock>, content: Content)
      ensures Valid() && this.docId == docId && this.rev == rev && this.content == content
      ensures conflicts == None
    {
      this.docId, this.rev, this.content := docId, rev, content;
      hasConflicts, conflicts := false, None;
    }

    function GetConflicts(): seq<Version>
      reads this
    {
      if conflicts.Some? then conflicts.value else []
    }

    method SetConflicts(vs: seq<Version>)
      modifies this`conflicts, this`hasConflicts
      ensures Valid() && conflicts == Some(vs)
    {
      conflicts := Some(vs);
      hasConflicts := |vs| > 0;
    }

    method AddConflict(v: Version) returns (r: Result<()>)
      requires Valid()
      modifies this`conflicts, this`hasConflicts
      ensures Valid()
      ensures old(conflicts).None? ==> r == Err(MissingConflicts) && conflicts == None
      ensures old(conflicts).Some? ==> r.Ok? && conflicts == Some(old(conflicts).value + [v])
    {
      if conflicts.None? {
        return Err(MissingConflicts);
      }
      conflicts := Some(conflicts.value + [v]);
      hasConflicts := |conflicts.value| > 0;
      return Ok(());
    }

    method DeleteConflicts(revs: set<Clock>) returns (r: Result<()>)
      requires Valid()
      modifies this`conflicts, this`hasConflicts
      ensures Valid()
      ensures old(conflicts).None? ==> r == Err(MissingConflicts) && conflicts == None
      ensures old(conflicts).Some? ==> r.Ok? && conflicts == Some(Without(old(conflicts).value, revs))
    {
      if conflicts.None? {
        return Err(MissingConflicts);
      }
      conflicts := Some(Without(conflicts.value, revs));
      hasConflicts := |conflicts.value| > 0;
      return Ok(());
    }
  }
}
