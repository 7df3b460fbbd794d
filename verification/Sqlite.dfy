/** The SQL client database: tables changed in place, proved against the replica specification. */
module Sqlite {
  import opened ChangeLog
  import opened Documents
  import opened LogScan
  import opened Pruning
  import opened Replicas
  import opened Revisions
  import opened VectorClocks
  import opened Wrappers

  /** The document as a version, once it has a revision. */
  function VersionOf(doc: Document): Version
    requires doc.rev.Some?
    reads doc
  {
    Version(doc.rev.value, doc.content)
  }

  class SqliteDatabase {
    const replicaUid: string
    const transactionIds: nat -> string
    var document: map<string, Version>
    var conflicts: map<string, seq<Version>>
    var transactionLog: seq<Entry>
    var syncLog: map<string, SyncPoint>

    constructor (replicaUid: string, transactionIds: nat -> string)
      ensures Model() == Replica(replicaUid, transactionIds, map[], map[], [], map[])
    {
      this.replicaUid, this.transactionIds := replicaUid, transactionIds;
      document, conflicts, transactionLog, syncLog := map[], map[], [], map[];
    }

    ghost function Model(): Replica
      reads this
    {
      Replica(replicaUid, transactionIds, document, conflicts, transactionLog, syncLog)
    }

    // ---------- reading ----------

    function GetConflicts(docId: string): seq<Version>
      reads this
    {
      if docId in conflicts then conflicts[docId] else []
    }

    predicate HasConflicts(docId: string)
      reads this
    {
      GetConflicts(docId) != []
    }

    function GetReplicaGenAndTransId(otherUid: string): SyncPoint
      reads this
    {
      if otherUid in syncLog then syncLog[otherUid] else SyncPoint(0, "")
    }

    /** One pass over the log from its end, keeping the first row seen of each document. */
    method WhatsChanged(oldGeneration: nat) returns (curGen: nat, newestTransId: string, changes: seq<Change>)
      ensures curGen == |transactionLog|
      ensures newestTransId == if transactionLog == [] then "" else transactionLog[|transactionLog| - 1].transId
      ensures changes == Changes(transactionLog, oldGeneration)
    {
      var seen: set<string> := {};
      var rows: seq<Change> := [];
      var g: nat := |transactionLog|;
      NothingCollected(transactionLog, oldGeneration);
      while oldGeneration < g
        invariant g <= |transactionLog|
        invariant Collected(transactionLog, oldGeneration, g, seen, rows)
        decreases g
      {
        hide Collected, Reverse;
        var row := transactionLog[g - 1];
        CollectRow(transactionLog, oldGeneration, g, seen, rows);
        if row.docId !in seen {
          rows := rows + [Change(row.docId, g, row.transId)];
          seen := seen + {row.docId};
        }
        g := g - 1;
      }
      AllCollected(transactionLog, oldGeneration, g, seen, rows);
      changes := Reverse(rows);
      if rows != [] {
        curGen, newestTransId := rows[0].gen, rows[0].transId;
      } else if transactionLog == [] {
        curGen, newestTransId := 0, "";
      } else {
        curGen, newestTransId := |transactionLog|, transactionLog[|transactionLog| - 1].transId;
      }
    }

    // ---------- local operations ----------

    method PutAndUpdateIndexes(doc: Document)
      requires doc.rev.Some?
      modifies this`document, this`transactionLog
      ensures Model() == Store(old(Model()), doc.docId, VersionOf(doc))
    {
      document := document[doc.docId := Version(doc.rev.value, doc.content)];
      transactionLog := transactionLog + [Entry(doc.docId, transactionIds(|transactionLog| + 1))];
    }

    method PutDoc(doc: Document) returns (r: Result<Clock>)
      modifies this, doc`rev
      ensures var spec := Replicas.PutDoc(old(Model()), doc.docId, old(doc.rev), doc.content);
        if spec.Ok? then Model() == spec.value && r == Ok(spec.value.docs[doc.docId].rev) && doc.rev == Some(r.value)
        else Model() == old(Model()) && r == Err(spec.error) && doc.rev == old(doc.rev)
    {
      if !ValidDocId(doc.docId) {
        return Err(InvalidDocId);
      }
      var present := doc.docId in document;
      if present && HasConflicts(doc.docId) {
        return Err(ConflictedDoc);
      }
      var newRev;
      if present && doc.rev == None && document[doc.docId].content == None {
        newRev := AllocateDocRev(replicaUid, Some(document[doc.docId].rev));
      } else {
        if present {
          if Some(document[doc.docId].rev) != doc.rev {
            return Err(RevisionConflict);
          }
        } else if doc.rev != None {
          return Err(RevisionConflict);
        }
        newRev := AllocateDocRev(replicaUid, doc.rev);
      }
      doc.rev := Some(newRev);
      PutAndUpdateIndexes(doc);
      return Ok(newRev);
    }

    method DeleteDoc(doc: Document) returns (r: Result<Clock>)
      modifies this, doc
      ensures var spec := Replicas.DeleteDoc(old(Model()), doc.docId, old(doc.rev));
        if spec.Ok? then
          && Model() == spec.value && r == Ok(spec.value.docs[doc.docId].rev)
          && doc.rev == Some(r.value) && doc.IsTombstone()
        else Model() == old(Model()) && r == Err(spec.error) && doc.rev == old(doc.rev) && doc.content == old(doc.content)
    {
      if doc.docId !in document {
        return Err(DocumentDoesNotExist);
      }
      if Some(document[doc.docId].rev) != doc.rev {
        return Err(RevisionConflict);
      }
      if document[doc.docId].content == None {
        return Err(DocumentAlreadyDeleted);
      }
      if HasConflicts(doc.docId) {
        return Err(ConflictedDoc);
      }
      var newRev := AllocateDocRev(replicaUid, doc.rev);
      doc.rev := Some(newRev);
      doc.MakeTombstone();
      PutAndUpdateIndexes(doc);
      return Ok(newRev);
    }

    // ---------- conflicts ----------

    /** The table's primary key is (document, revision); a duplicate row is refused. */
    method AddConflict(docId: string, v: Version) returns (r: Result<()>)
      modifies this`conflicts
      ensures if v.rev in Revs(old(GetConflicts(docId))) then r == Err(IntegrityError) && conflicts == old(conflicts)
        else r.Ok? && conflicts == WithConflicts(old(conflicts), docId, old(GetConflicts(docId)) + [v])
    {
      if v.rev in Revs(GetConflicts(docId)) {
        return Err(IntegrityError);
      }
      conflicts := WithConflicts(conflicts, docId, GetConflicts(docId) + [v]);
      return Ok(());
    }

    method DeleteConflicts(doc: Document, revs: set<Clock>)
      modifies this`conflicts, doc`hasConflicts
      ensures conflicts == WithConflicts(old(conflicts), doc.docId, Without(old(GetConflicts(doc.docId)), revs))
      ensures doc.hasConflicts == HasConflicts(doc.docId)
    {
      conflicts := WithConflicts(conflicts, doc.docId, Without(GetConflicts(doc.docId), revs));
      doc.hasConflicts := HasConflicts(doc.docId);
    }

    /** Scans the stored conflicts against a clock that grows with every conflict merged in. */
    method PruneConflicts(doc: Document, docVcr: VectorClockRev)
      requires doc.rev == Some(docVcr.values)
      modifies this`conflicts, doc`rev, doc`hasConflicts, docVcr
      ensures var p := Prune(replicaUid, old(VersionOf(doc)), old(GetConflicts(doc.docId)));
        && doc.rev == Some(p.doc.rev)
        && conflicts == if old(HasConflicts(doc.docId)) then WithConflicts(old(conflicts), doc.docId, p.kept)
                          else old(conflicts)
      ensures doc.hasConflicts == if old(HasConflicts(doc.docId)) then HasConflicts(doc.docId) else old(doc.hasConflicts)
    {
      if HasConflicts(doc.docId) {
        ghost var v := VersionOf(doc);
        var rows := GetConflicts(doc.docId);
        var autoresolved, toPrune := false, {};
        for i := 0 to |rows|
          invariant doc.rev == Some(v.rev) && conflicts == old(conflicts)
          invariant Scan(docVcr.values, toPrune, autoresolved) == ScanAll(v, rows[..i])
        {
          var c := rows[i];
          assert rows[..i + 1][..i] == rows[..i];
          var cVcr := new VectorClockRev(c.rev);
          var older := docVcr.IsNewer(cVcr);
          if older {
            toPrune := toPrune + {c.rev};
          } else if doc.content == c.content {
            toPrune := toPrune + {c.rev};
            docVcr.Maximize(cVcr);
            autoresolved := true;
          }
        }
        assert rows[..|rows|] == rows;
        if autoresolved {
          docVcr.IncrementFor(replicaUid);
          doc.rev := Some(docVcr.values);
        }
        DeleteConflicts(doc, toPrune);
      } else {
        assert ScanAll(VersionOf(doc), []) == Scan(docVcr.values, {}, false);
      }
    }

    method ForceDocSyncConflict(doc: Document) returns (r: Result<()>)
      requires doc.rev.Some? && doc.docId in document
      modifies this`document, this`transactionLog, this`conflicts, doc`rev, doc`hasConflicts
      ensures var spec := ForceConflict(old(Model()), doc.docId, old(VersionOf(doc)));
        if spec.Ok? then r.Ok? && Model() == spec.value
        else r == Err(spec.error) && Model() == Refuse(old(Model()), doc.docId, old(VersionOf(doc)))
      ensures r.Ok? ==> doc.hasConflicts && doc.rev == Some(document[doc.docId].rev)
    {
      var myDoc := document[doc.docId];
      ghost var before := conflicts;
      var vcr := new VectorClockRev(doc.rev.value);
      ghost var p := Prune(replicaUid, VersionOf(doc), GetConflicts(doc.docId));
      NothingToPrune(replicaUid, VersionOf(doc));
      hide Prune;
      PruneConflicts(doc, vcr);
      assert GetConflicts(doc.docId) == p.kept;
      var added := AddConflict(doc.docId, myDoc);
      if added.Err? {
        return added;
      }
      doc.hasConflicts := true;
      WithConflictsTwice(before, doc.docId, p.kept, p.kept + [myDoc]);
      assert conflicts == WithConflicts(before, doc.docId, p.kept + [myDoc]);
      hide WithConflicts;
      PutAndUpdateIndexes(doc);
      return Ok(());
    }

    method ResolveDoc(doc: Document, revs: seq<Clock>) returns (r: Result<()>)
      modifies this, doc`rev, doc`hasConflicts
      ensures var spec := Replicas.ResolveDoc(old(Model()), doc.docId, doc.content, revs);
        if spec.Ok? then
          && r.Ok? && Model() == spec.value
          && doc.rev == Some(MaximalRev(replicaUid, old(document)[doc.docId].rev, revs))
          && doc.hasConflicts == HasConflicts(doc.docId)
        else r == Err(spec.error) && Model() == old(Model())
    {
      if doc.docId !in document {
        return Err(DocumentDoesNotExist);
      }
      hide MaximalRev, SetOf, Without, WithConflicts;
      var curRev := document[doc.docId].rev;
      var newRev := EnsureMaximalRev(replicaUid, curRev, revs);
      var superseded := SetOf(revs);
      doc.rev := Some(newRev);
      if curRev in superseded {
        PutAndUpdateIndexes(doc);
      } else {
        var added := AddConflict(doc.docId, Version(newRev, doc.content));
        if added.Err? {
          return added;
        }
      }
      DeleteConflicts(doc, superseded);
      ghost var before := old(GetConflicts(doc.docId));
      ghost var rows := if curRev in superseded then before else before + [Version(newRev, doc.content)];
      WithConflictsTwice(old(conflicts), doc.docId, rows, Without(rows, superseded));
      assert conflicts == WithConflicts(old(conflicts), doc.docId, Without(rows, superseded));
      assert Replicas.ResolveDoc(old(Model()), doc.docId, doc.content, revs).Ok?;
      return Ok(());
    }

    // ---------- synchronisation ----------

    method ValidateSource(otherUid: string, p: SyncPoint) returns (error: Option<Error>)
      ensures error == Replicas.ValidateSource(Model(), otherUid, p)
    {
      var known := GetReplicaGenAndTransId(otherUid);
      if p.gen < known.gen {
        return Some(InvalidGeneration);
      }
      if p.gen > known.gen {
        return None;
      }
      if p.transId == known.transId {
        return None;
      }
      return Some(InvalidTransactionId);
    }

    /** A generation the log really has, with the transaction id it really has. */
    method ValidateGenAndTransId(p: SyncPoint) returns (error: Option<Error>)
      ensures error.None? <==>
        p.gen == 0 || (p.gen <= |transactionLog| && transactionLog[p.gen - 1].transId == p.transId)
      ensures error.Some? ==> error.value == if p.gen > |transactionLog| then InvalidGeneration else InvalidTransactionId
    {
      if p.gen == 0 {
        return None;
      }
      if p.gen > |transactionLog| {
        return Some(InvalidGeneration);
      }
      if transactionLog[p.gen - 1].transId != p.transId {
        return Some(InvalidTransactionId);
      }
      return None;
    }

    method SetReplicaGenAndTransId(otherUid: string, p: SyncPoint)
      modifies this`syncLog
      ensures Model() == SetKnown(old(Model()), otherUid, p)
    {
      syncLog := syncLog[otherUid := p];
    }

    /** The newer document replaces the current one. */
    method InsertNewer(doc: Document, docVcr: VectorClockRev) returns (state: Outcome)
      requires doc.rev == Some(docVcr.values)
      modifies this`document, this`transactionLog, this`conflicts, doc`rev, doc`hasConflicts, docVcr
      ensures var spec := StoreNewer(old(Model()), doc.docId, old(VersionOf(doc)));
        Model() == spec.replica && state == spec.outcome
      ensures !state.ConflictFound?
      ensures doc.docId in document && doc.rev == Some(document[doc.docId].rev)
      ensures doc.hasConflicts == if old(HasConflicts(doc.docId)) then HasConflicts(doc.docId) else old(doc.hasConflicts)
      ensures |transactionLog| == old(|transactionLog|) + 1
    {
      var rev := doc.rev;
      hide Prune;
      PruneConflicts(doc, docVcr);
      state := if doc.rev != rev then Superseded else Inserted;
      PutAndUpdateIndexes(doc);
    }

    method MergeDoc(doc: Document, docVcr: VectorClockRev, saveConflict: bool) returns (r: Result<Outcome>)
      requires doc.rev == Some(docVcr.values)
      modifies this`document, this`transactionLog, this`conflicts, doc`rev, doc`hasConflicts, docVcr
      ensures var spec := Merge(old(Model()), doc.docId, old(VersionOf(doc)), saveConflict);
        if spec.Ok? then Model() == spec.value.replica && r == Ok(spec.value.outcome)
        else Model() == AfterError(old(Model()), doc.docId, old(VersionOf(doc)), spec.error) && r == Err(spec.error)
      // The caller's document has the revision that was stored, if it was stored at all.
      ensures r.Ok? ==>
        if |transactionLog| == old(|transactionLog|) then doc.rev == old(doc.rev)
        else doc.docId in document && doc.rev == Some(document[doc.docId].rev)
      ensures r == Ok(ConflictFound) && saveConflict ==> doc.hasConflicts
    {
      hide StoreNewer, Newer, Join, Refuse;
      var curVcr := new VectorClockRev(if doc.docId in document then document[doc.docId].rev else map[]);
      var newer := docVcr.IsNewer(curVcr);
      if newer {
        var state := InsertNewer(doc, docVcr);
        return Ok(state);
      }
      if doc.docId !in document {
        return Err(MalformedRevision);
      }
      if doc.rev.value == document[doc.docId].rev {
        return Ok(Converged);
      }
      var older := curVcr.IsNewer(docVcr);
      if older {
        return Ok(Superseded);
      }
      if document[doc.docId].content == doc.content {
        docVcr.Maximize(curVcr);
        docVcr.IncrementFor(replicaUid);
        doc.rev := Some(docVcr.values);
        PutAndUpdateIndexes(doc);
        return Ok(Superseded);
      }
      if saveConflict {
        var forced := ForceDocSyncConflict(doc);
        if forced.Err? {
          return Err(forced.error);
        }
      }
      return Ok(ConflictFound);
    }

    /** Takes in a version from another replica; the document carries its revision. */
    method PutDocIfNewer(doc: Document, saveConflict: bool, source: string, p: SyncPoint)
      returns (r: Result<Outcome>, atGen: nat)
      requires doc.rev.Some?
      modifies this, doc`rev, doc`hasConflicts
      ensures var spec := Replicas.PutDocIfNewer(old(Model()), doc.docId, old(VersionOf(doc)), saveConflict, source, p);
        if spec.Ok? then
          Model() == spec.value.replica && r == Ok(spec.value.outcome) && atGen == |transactionLog|
        else Model() == AfterError(old(Model()), doc.docId, old(VersionOf(doc)), spec.error) && r == Err(spec.error)
      // The caller's document has the revision that was stored, if it was stored at all.
      ensures r.Ok? ==>
        if |transactionLog| == old(|transactionLog|) then doc.rev == old(doc.rev)
        else doc.docId in document && doc.rev == Some(document[doc.docId].rev)
      ensures r == Ok(ConflictFound) && saveConflict ==> doc.hasConflicts
    {
      atGen := 0;
      hide Merge, Refuse;
      var docVcr := new VectorClockRev(doc.rev.value);
      var invalid := ValidateSource(source, p);
      if invalid.Some? {
        return Err(invalid.value), atGen;
      }
      r := MergeDoc(doc, docVcr, saveConflict);
      if r.Err? {
        return r, atGen;
      }
      SetReplicaGenAndTransId(source, p);
      atGen := |transactionLog|;
    }
  }
}
