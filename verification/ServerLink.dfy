/** The server's side of an upload is the sending half of a session. */
module ServerLink {
  import opened ChangeLog
  import opened Exchange
  import opened Guarantees
  import opened Links
  import opened Replicas
  import opened ServerSync
  import opened Wrappers

  /** What the client uploads: the changed documents as it has them. */
  function Uploads(client: Replica, changes: seq<Change>): (entries: seq<Incoming>)
    requires forall c <- changes :: c.docId in client.docs
    ensures |entries| == |changes|
  {
    if changes == [] then []
    else
      var init, c := changes[..|changes| - 1], changes[|changes| - 1];
      Uploads(client, init) + [Incoming(c.docId, client.docs[c.docId], PointOf(c))]
  }

  lemma UploadsStep(client: Replica, changes: seq<Change>, k: nat)
    requires k < |changes| && forall c <- changes :: c.docId in client.docs
    ensures var c := changes[k];
      Uploads(client, changes[..k + 1]) ==
        Uploads(client, changes[..k]) + [Incoming(c.docId, client.docs[c.docId], PointOf(c))]
  {
    assert changes[..k + 1][..k] == changes[..k];
  }

  /** A session in which sending starts, with nothing sent yet. */
  ghost predicate StartsSending(l: Link) {
    && l.session == NO_SESSION.(phase := Sending, startGen := l.session.startGen, changes := l.session.changes)
    && forall c <- l.session.changes :: c.docId in l.client.docs
  }

  /** After some rounds: the server is where the insertions put it, and the seen ids are those noted. */
  ghost predicate InsertedThrough(started: Link, k: nat, all: Result<Received>) {
    var n := SendRounds(started, k);
    if all.Err? then n.session == NO_SESSION
    else
      && n == Link(all.value.replica, started.client, n.session, started.skipped)
      && n.session == started.session.(
           sent := n.session.sent, outcomes := n.session.outcomes, seenIds := Dict(all.value.seen))
      && |n.session.sent| == |n.session.outcomes| == k
  }

  lemma NotedOneMore(seen: seq<(string, nat)>, docId: string, gen: nat)
    ensures Dict(seen + [(docId, gen)]) == Dict(seen)[docId := gen]
  {
    assert (seen + [(docId, gen)])[..|seen|] == seen;
  }

  lemma OneMoreUpload(started: Link, k: nat, all: Received)
    requires StartsSending(started) && k < |started.session.changes|
    requires InsertedThrough(started, k, Ok(all))
    ensures var c := started.session.changes[k];
      InsertedThrough(started, k + 1,
        InsertOne(all, started.client.uid, Incoming(c.docId, started.client.docs[c.docId], PointOf(c))))
  {
    hide PutDocIfNewer, SendRound, Dict;
    var c := started.session.changes[k];
    assert c in started.session.changes;
    SendRoundIsPut(SendRounds(started, k));
    assert SendRounds(started, k + 1) == SendRound(SendRounds(started, k));
    hide SendRounds;
    var put := PutDocIfNewer(all.replica, c.docId, started.client.docs[c.docId], false, started.client.uid, PointOf(c));
    if put.Ok? {
      NotedOneMore(all.seen, c.docId, |put.value.replica.log|);
    }
  }

  lemma NoSessionStays(l: Link)
    requires l.session == NO_SESSION
    ensures SendRound(l).session == NO_SESSION
  {}

  /** The first documents of the upload, inserted one by one. */
  function Inserted(started: Link, k: nat): Result<Received>
    requires k <= |started.session.changes|
    requires forall c <- started.session.changes :: c.docId in started.client.docs
  {
    InsertAll(started.server, started.client.uid, Uploads(started.client, started.session.changes[..k]))
  }

  lemma InsertedStep(started: Link, k: nat)
    requires StartsSending(started) && k < |started.session.changes|
    ensures var c := started.session.changes[k];
      Inserted(started, k + 1) ==
        if Inserted(started, k).Err? then Inserted(started, k)
        else InsertOne(Inserted(started, k).value, started.client.uid,
                       Incoming(c.docId, started.client.docs[c.docId], PointOf(c)))
  {
    hide InsertOne, Uploads;
    UploadsStep(started.client, started.session.changes, k);
    var entries := Uploads(started.client, started.session.changes[..k + 1]);
    assert entries[..k] == Uploads(started.client, started.session.changes[..k]);
  }

  lemma NothingInsertedYet(started: Link)
    requires StartsSending(started)
    ensures InsertedThrough(started, 0, Inserted(started, 0))
  {
    assert Dict([]) == map[];
  }

  /** Inserting what the client uploads, one by one or in batches, is what the session's rounds do to the server. */
  lemma {:induction false} UploadIsSendRounds(started: Link, k: nat)
    requires StartsSending(started) && k <= |started.session.changes|
    ensures InsertedThrough(started, k, Inserted(started, k))
  {
    hide Inserted, InsertOne, SendRound;
    if k == 0 {
      NothingInsertedYet(started);
    } else {
      UploadIsSendRounds(started, k - 1);
      InsertedStep(started, k - 1);
      if Inserted(started, k - 1).Ok? {
        OneMoreUpload(started, k - 1, Inserted(started, k - 1).value);
      } else {
        NoSessionStays(SendRounds(started, k - 1));
      }
    }
  }

  /** Once everything is uploaded, what the server finds to return is what the session returns. */
  lemma FoundIsToReturn(started: Link)
    requires StartsSending(started)
    ensures var total := |started.session.changes|;
      var all, n := Inserted(started, total), FindStep(SendRounds(started, total));
      if all.Err? then n.session == NO_SESSION
      else
        && n.server == all.value.replica
        && n.session.newPoint == Tip(all.value.replica.log)
        && n.session.toReturn == ToReturn(Changes(all.value.replica.log, Known(started).gen), Dict(all.value.seen))
  {
    var changes := started.session.changes;
    UploadIsSendRounds(started, |changes|);
    UidStays(started.server, started.client.uid, Uploads(started.client, changes[..|changes|]));
    hide InsertAll, SendRounds, Uploads, Changes, ToReturn, Dict;
  }

  lemma {:induction false} UidStays(r: Replica, source: string, entries: seq<Incoming>)
    ensures var all := InsertAll(r, source, entries);
      all.Ok? ==> all.value.replica.uid == r.uid
  {
    if entries != [] {
      hide Merge;
      var init, e := entries[..|entries| - 1], entries[|entries| - 1];
      UidStays(r, source, init);
      if InsertAll(r, source, init).Ok? {
        MergeFrame(InsertAll(r, source, init).value.replica, e.docId, e.version);
      }
    }
  }
}
