/**
 * A replica as a value, and every operation on it as a function: the specification of the
 * SQL client database and of the server backend.
 */
module Replicas {
  import opened ChangeLog
  import opened Documents
  import opened Pruning
  import opened VectorClocks
  import opened Wrappers

  /**
   * `ids` supplies the random transaction ids, one per generation. `known` is the sync log: the
   * generation of each other replica that this one has taken in.
   */
  datatype Replica = Replica(
    uid: string,
    ids: nat -> string,
    docs: map<string, Version>,
    conflicts: map<string, seq<Version>>,
    log: seq<Entry>,
    known: map<string, SyncPoint>)

  function ConflictsOf(r: Replica, docId: string): seq<Version> {
    if docId in r.conflicts then r.conflicts[docId] else []
  }

  /** A document without conflicts has no row. */
  function WithConflicts(conflicts: map<string, seq<Version>>, docId: string, vs: seq<Version>)
    : (changed: map<string, seq<Version>>)
    ensures (if docId in changed then changed[docId] else []) == vs
    ensures changed - {docId} == conflicts - {docId}
  {
    if vs == [] then conflicts - {docId} else conflicts[docId := vs]
  }

  lemma WithConflictsTwice(conflicts: map<string, seq<Version>>, docId: string, us: seq<Version>, vs: seq<Version>)
    ensures WithConflicts(WithConflicts(conflicts, docId, us), docId, vs) == WithConflicts(conflicts, docId, vs)
  {}

  function KnownOf(r: Replica, uid: string): SyncPoint {
    if uid in r.known then r.known[uid] else START
  }

  function RevOf(r: Replica, docId: string): Clock {
    if docId in r.docs then r.docs[docId].rev else ZERO
  }

  function SetKnown(r: Replica, uid: string, p: SyncPoint): Replica {
    r.(known := r.known[uid := p])
  }

  /** Write the current version and log the change. */
  function Store(r: Replica, docId: string, v: Version): Replica {
    r.(docs := r.docs[docId := v], log := r.log + [Entry(docId, r.ids(|r.log| + 1))])
  }

  // ---------- local operations ----------

  predicate AllowedInDocId(c: char) {
    'a' <= c <= 'z' || 'A' <= c <= 'Z' || '0' <= c <= '9' || c in ".%_-"
  }

  /** The document id pattern; its end anchor also tolerates one newline at the end. */
  predicate ValidDocId(docId: string) {
    var body := if docId != "" && docId[|docId| - 1] == '\n' then docId[..|docId| - 1] else docId;
    body != "" && forall c <- body :: AllowedInDocId(c)
  }

  function PutDoc(r: Replica, docId: string, rev: Option<Clock>, content: Content): Result<Replica> {
    if !ValidDocId(docId) then Err(InvalidDocId)
    else if docId in r.docs && ConflictsOf(r, docId) != [] then Err(ConflictedDoc)
    else if docId in r.docs && rev == None && r.docs[docId].content == None then
      Ok(Store(r, docId, Version(Increment(r.docs[docId].rev, r.uid), content)))
    else if docId in r.docs && rev != Some(r.docs[docId].rev) then Err(RevisionConflict)
    else if docId !in r.docs && rev != None then Err(RevisionConflict)
    else Ok(Store(r, docId, Version(Increment(if rev == None then ZERO else rev.value, r.uid), content)))
  }

  function DeleteDoc(r: Replica, docId: string, rev: Option<Clock>): Result<Replica> {
    if docId !in r.docs then Err(DocumentDoesNotExist)
    else if rev != Some(r.docs[docId].rev) then Err(RevisionConflict)
    else if r.docs[docId].content == None then Err(DocumentAlreadyDeleted)
    else if ConflictsOf(r, docId) != [] then Err(ConflictedDoc)
    else Ok(Store(r, docId, Version(Increment(rev.value, r.uid), None)))
  }

  function JoinAll(rev: Clock, revs: seq<Clock>): Clock {
    if revs == [] then rev else Join(JoinAll(rev, revs[..|revs| - 1]), revs[|revs| - 1])
  }

  /** The revision of a resolution: above the current one and everything it supersedes. */
  function MaximalRev(uid: string, rev: Clock, revs: seq<Clock>): Clock {
    Increment(JoinAll(rev, revs), uid)
  }

  function SetOf(revs: seq<Clock>): (s: set<Clock>)
    ensures forall x :: x in s <==> x in revs
  {
    set rev <- revs
  }

  /**
   * The resolution becomes current when it supersedes the current version; otherwise it is
   * one more conflict. The conflicts table has (document, revision) as its primary key.
   */
  function ResolveDoc(r: Replica, docId: string, content: Content, revs: seq<Clock>): Result<Replica> {
    if docId !in r.docs then Err(DocumentDoesNotExist)
    else
      var cur := r.docs[docId];
      var resolved := Version(MaximalRev(r.uid, cur.rev, revs), content);
      var superseded := SetOf(revs);
      var conflicts := ConflictsOf(r, docId);
      if cur.rev in revs then
        Ok(Store(r, docId, resolved).(conflicts := WithConflicts(r.conflicts, docId, Without(conflicts, superseded))))
      else if resolved.rev in Revs(conflicts) then Err(IntegrityError)
      else Ok(r.(conflicts := WithConflicts(r.conflicts, docId, Without(conflicts + [resolved], superseded))))
  }

  lemma ResolveFrame(r: Replica, docId: string, content: Content, revs: seq<Clock>)
    requires ResolveDoc(r, docId, content, revs).Ok?
    ensures var s := ResolveDoc(r, docId, content, revs).value;
      && s.uid == r.uid && s.known == r.known
      && s.docs - {docId} == r.docs - {docId}
      && s.conflicts - {docId} == r.conflicts - {docId}
  {
    hide MaximalRev, Revs, Without, WithConflicts;
    assert ResolveDoc(r, docId, content, revs).value.docs - {docId} == r.docs - {docId};
  }

  datatype LocalAction =
    | Put(docId: string, rev: Option<Clock>, content: Content)
    | Delete(docId: string, rev: Option<Clock>)
    | Resolve(docId: string, content: Content, revs: seq<Clock>)

  function Perform(r: Replica, a: LocalAction): Result<Replica> {
    match a
    case Put(d, rev, content) => PutDoc(r, d, rev, content)
    case Delete(d, rev) => DeleteDoc(r, d, rev)
    case Resolve(d, content, revs) => ResolveDoc(r, d, content, revs)
  }

  // ---------- taking in a version from another replica ----------

  datatype Outcome = Inserted | Converged | Superseded | ConflictFound

  datatype Taken = Taken(outcome: Outcome, replica: Replica)

  /** The version a newer document is stored as, after its conflicts are pruned. */
  function StoreNewer(r: Replica, docId: string, v: Version): Taken {
    var p := Prune(r.uid, v, ConflictsOf(r, docId));
    Taken(
      if p.doc.rev != v.rev then Superseded else Inserted,
      Store(r, docId, p.doc).(conflicts :=
        if ConflictsOf(r, docId) == [] then r.conflicts else WithConflicts(r.conflicts, docId, p.kept)))
  }

  /** Take the other side's version as the current one and keep ours as a conflict. */
  function ForceConflict(r: Replica, docId: string, v: Version): Result<Replica>
    requires docId in r.docs
  {
    var p := Prune(r.uid, v, ConflictsOf(r, docId));
    var mine := r.docs[docId];
    if mine.rev in Revs(p.kept) then Err(IntegrityError)
    else Ok(Store(r, docId, p.doc).(conflicts := WithConflicts(r.conflicts, docId, p.kept + [mine])))
  }

  /** The version replaced by a forced conflict has the revision of a conflict that stays. */
  predicate Refuses(r: Replica, docId: string, v: Version) {
    && docId in r.docs
    && !Covers(v.rev, r.docs[docId].rev) && !Covers(r.docs[docId].rev, v.rev)
    && r.docs[docId].content != v.content
    && r.docs[docId].rev in Revs(Prune(r.uid, v, ConflictsOf(r, docId)).kept)
  }

  /** By the time the duplicate row is refused the conflicts are pruned, and nothing takes that back. */
  function Refuse(r: Replica, docId: string, v: Version): Replica {
    r.(conflicts := WithConflicts(r.conflicts, docId, Prune(r.uid, v, ConflictsOf(r, docId)).kept))
  }

  function Merge(r: Replica, docId: string, v: Version, saveConflict: bool): Result<Taken> {
    var curRev := RevOf(r, docId);
    if Newer(v.rev, curRev) then Ok(StoreNewer(r, docId, v))
    else if docId !in r.docs then Err(MalformedRevision)
    else if v.rev == curRev then Ok(Taken(Converged, r))
    else if Newer(curRev, v.rev) then Ok(Taken(Superseded, r))
    else if r.docs[docId].content == v.content then
      Ok(Taken(Superseded, Store(r, docId, Version(Increment(Join(v.rev, curRev), r.uid), v.content))))
    else if saveConflict then
      var forced := ForceConflict(r, docId, v);
      if forced.Err? then Err(forced.error) else Ok(Taken(ConflictFound, forced.value))
    else Ok(Taken(ConflictFound, r))
  }

  /** The other replica's generations may only move forward. */
  function ValidateSource(r: Replica, source: string, p: SyncPoint): Option<Error> {
    var last := KnownOf(r, source);
    if p.gen < last.gen then Some(InvalidGeneration)
    else if p.gen > last.gen || p.transId == last.transId then None
    else Some(InvalidTransactionId)
  }

  /** Merge, then remember how far the other replica has been taken in. */
  function PutDocIfNewer(r: Replica, docId: string, v: Version, saveConflict: bool, source: string, p: SyncPoint)
    : Result<Taken>
  {
    var invalid := ValidateSource(r, source, p);
    if invalid.Some? then Err(invalid.value)
    else
      var taken := Merge(r, docId, v, saveConflict);
      if taken.Err? then taken
      else Ok(taken.value.(replica := SetKnown(taken.value.replica, source, p)))
  }

  /** What is left of the replica when taking in a version raises. */
  function AfterError(r: Replica, docId: string, v: Version, error: Error): Replica {
    if error == IntegrityError then Refuse(r, docId, v) else r
  }

  /** The replica after an attempt to take in a version, successful or not. */
  function AfterPut(r: Replica, docId: string, v: Version, saveConflict: bool, source: string, p: SyncPoint): Replica {
    var put := PutDocIfNewer(r, docId, v, saveConflict, source, p);
    if put.Ok? then put.value.replica else AfterError(r, docId, v, put.error)
  }

  /**
   * Taking in a version fails in two cases: a revision without counters for a document not yet
   * there, and the duplicate row.
   */
  lemma MergeFailsExactlyWhen(r: Replica, docId: string, v: Version, saveConflict: bool)
    ensures var m := Merge(r, docId, v, saveConflict);
      && (m == Err(IntegrityError) <==> saveConflict && Refuses(r, docId, v))
      && (m == Err(MalformedRevision) <==> docId !in r.docs && v.rev == ZERO)
      && (m.Err? ==> m.error == IntegrityError || m.error == MalformedRevision)
  {
    hide Prune;
    if docId in r.docs {
      NewerIsStrictOrder(r.docs[docId].rev, v.rev, v.rev);
      if v.rev != r.docs[docId].rev && Covers(v.rev, r.docs[docId].rev) {
        assert Newer(v.rev, r.docs[docId].rev);
      }
    }
  }

  ghost predicate SameButFor(r: Replica, s: Replica, docId: string) {
    s.uid == r.uid && s.docs - {docId} == r.docs - {docId} && s.conflicts - {docId} == r.conflicts - {docId}
  }

  lemma StoreTouches(r: Replica, docId: string, v: Version, conflicts: map<string, seq<Version>>)
    requires conflicts - {docId} == r.conflicts - {docId}
    ensures SameButFor(r, Store(r, docId, v).(conflicts := conflicts), docId)
  {}

  lemma MergeTouches(r: Replica, docId: string, v: Version, saveConflict: bool)
    requires Merge(r, docId, v, saveConflict).Ok?
    ensures SameButFor(r, Merge(r, docId, v, saveConflict).value.replica, docId)
  {
    hide Prune, Newer, Join, Increment, WithConflicts;
    var s := Merge(r, docId, v, saveConflict).value.replica;
    if s != r {
      assert s == Store(r, docId, s.docs[docId]).(conflicts := s.conflicts);
      StoreTouches(r, docId, s.docs[docId], s.conflicts);
    }
  }

  /** Whatever happens, no other document is touched. */
  lemma AfterPutFrame(r: Replica, docId: string, v: Version, saveConflict: bool, source: string, p: SyncPoint)
    ensures SameButFor(r, AfterPut(r, docId, v, saveConflict, source, p), docId)
  {
    hide Merge, Prune, WithConflicts, ValidateSource;
    if Merge(r, docId, v, saveConflict).Ok? {
      MergeTouches(r, docId, v, saveConflict);
    }
  }

  // ---------- revisions of resolutions ----------

  lemma {:induction false} JoinAllCovers(rev: Clock, revs: seq<Clock>)
    ensures Covers(JoinAll(rev, revs), rev)
    ensures forall x <- revs :: Covers(JoinAll(rev, revs), x)
  {
    if revs != [] {
      var init, last := revs[..|revs| - 1], revs[|revs| - 1];
      assert revs == init + [last];
      JoinAllCovers(rev, init);
      var before, after := JoinAll(rev, init), JoinAll(rev, revs);
      JoinIsLeastUpperBound(before, last, last);
      CoversTransitiveFrom(after, before);
    }
  }

  /**
   * The question left open beside resolve_doc: a resolution never has a revision that it
   * supersedes, so a conflict just added is never deleted in the same call.
   */
  lemma ResolutionIsNeverSuperseded(uid: string, rev: Clock, revs: seq<Clock>)
    ensures var resolution := MaximalRev(uid, rev, revs);
      && Newer(resolution, rev)
      && (forall x <- revs :: Newer(resolution, x))
      && resolution !in revs
  {
    JoinAllCovers(rev, revs);
    var top := JoinAll(rev, revs);
    IncrementIsNewer(top, uid);
    forall x: Clock ensures Covers(top, x) ==> Newer(Increment(top, uid), x) {
      NewerIsStrictOrder(Increment(top, uid), top, x);
    }
    assert forall x <- revs :: x != Increment(top, uid);
  }

  // ---------- no version is lost ----------

  /** Every version a replica holds of a document, current or in conflict. */
  function Held(r: Replica, docId: string): set<Version> {
    (if docId in r.docs then {r.docs[docId]} else {}) + (set v <- ConflictsOf(r, docId))
  }

  ghost predicate Survives(v: Version, held: set<Version>) {
    v in held || exists w <- held :: Newer(w.rev, v.rev)
  }

  /** Whatever `r` holds is still held by `s`, or is superseded by something `s` holds. */
  ghost predicate NothingLost(r: Replica, s: Replica) {
    forall docId, v :: v in Held(r, docId) ==> Survives(v, Held(s, docId))
  }

  lemma NothingLostTransitive(r: Replica, s: Replica, t: Replica)
    requires NothingLost(r, s) && NothingLost(s, t)
    ensures NothingLost(r, t)
  {
    forall docId, v | v in Held(r, docId) ensures Survives(v, Held(t, docId)) {
      if v !in Held(s, docId) {
        var w :| w in Held(s, docId) && Newer(w.rev, v.rev);
        assert Survives(w, Held(t, docId));
        if w !in Held(t, docId) {
          var x :| x in Held(t, docId) && Newer(x.rev, w.rev);
          NewerIsStrictOrder(x.rev, w.rev, v.rev);
        }
      }
    }
  }

  /** Two replicas that differ in one document only are the same in every other. */
  lemma SameElsewhere(r: Replica, s: Replica, docId: string, x: string)
    requires r.docs - {docId} == s.docs - {docId}
    requires r.conflicts - {docId} == s.conflicts - {docId}
    requires x != docId
    ensures (x in r.docs <==> x in s.docs) && (x in r.docs ==> r.docs[x] == s.docs[x])
    ensures ConflictsOf(r, x) == ConflictsOf(s, x) && Held(r, x) == Held(s, x)
  {
    assert x in r.docs <==> x in r.docs - {docId};
    assert x in s.docs <==> x in s.docs - {docId};
    assert x in r.conflicts <==> x in r.conflicts - {docId};
    assert x in s.conflicts <==> x in s.conflicts - {docId};
    assert x in r.docs ==> r.docs[x] == (r.docs - {docId})[x];
    assert x in s.docs ==> s.docs[x] == (s.docs - {docId})[x];
    assert x in r.conflicts ==> r.conflicts[x] == (r.conflicts - {docId})[x];
    assert x in s.conflicts ==> s.conflicts[x] == (s.conflicts - {docId})[x];
  }

  /** It is enough to look at the one document an operation touches. */
  lemma OnlyTouches(r: Replica, s: Replica, docId: string)
    requires r.docs - {docId} == s.docs - {docId}
    requires r.conflicts - {docId} == s.conflicts - {docId}
    requires forall v <- Held(r, docId) :: Survives(v, Held(s, docId))
    ensures NothingLost(r, s)
  {
    forall d, v | v in Held(r, d) ensures Survives(v, Held(s, d)) {
      if d != docId {
        SameElsewhere(r, s, docId, d);
      }
    }
  }
}
