/**
 * One client, the server, and the sync session between them, advanced one step at a time.
 * Between any two steps the client may write, and so may the server on behalf of others.
 */
module Links {
  import opened ChangeLog
  import opened Documents
  import opened Replicas
  import opened Wrappers

  datatype Phase = Idle | Sending | Receiving | Finished

  /**
   * `changes` are sent in order: the first |sent| have been read at the client, the first
   * |outcomes| of those have been answered by the server. `toReturn` comes back in order: the
   * first |returned| have been read at the server, the first `delivered` inserted at the client.
   * `numLogged` counts the insertions that wrote to the client's log.
   */
  datatype Session = Session(
    phase: Phase,
    startGen: nat,
    changes: seq<Change>,
    sent: seq<Version>,
    outcomes: seq<Outcome>,
    seenIds: map<string, nat>,
    unrecorded: Option<SyncPoint>,
    newPoint: SyncPoint,
    toReturn: seq<Change>,
    returned: seq<Version>,
    delivered: nat,
    numInserted: nat,
    numLogged: nat,
    gapless: Option<SyncPoint>)

  const NO_SESSION := Session(Idle, 0, [], [], [], map[], None, START, [], [], 0, 0, 0, None)

  /**
   * `skipped` records the documents whose last delivery to this client was refused. No step looks at
   * it; it is there for what is said about the steps.
   */
  datatype Link = Link(server: Replica, client: Replica, session: Session, skipped: set<string>)

  datatype SyncStep =
    | Start | Send | Insert | Record | Find | Return | Deliver | Complete | CheckGapless | RecordInfo | Abort

  function Known(l: Link): SyncPoint { KnownOf(l.client, l.server.uid) }

  function KnownByServer(l: Link): SyncPoint { KnownOf(l.server, l.client.uid) }

  /** An answer after which the target leaves the document out of what it returns. */
  predicate Settles(o: Outcome) {
    o.Inserted? || o.Converged?
  }

  /** An outcome at the source that it counts as an insertion. */
  predicate Counts(o: Outcome) {
    o.Inserted? || o.ConflictFound?
  }

  /** The changes to return: all but those settled and not changed again since. */
  function ToReturn(cs: seq<Change>, seenIds: map<string, nat>): seq<Change> {
    if cs == [] then []
    else
      var init, c := ToReturn(cs[..|cs| - 1], seenIds), cs[|cs| - 1];
      if c.docId !in seenIds || seenIds[c.docId] < c.gen then init + [c] else init
  }

  /** A session starts unless there is nothing to exchange. */
  function StartStep(l: Link): Link {
    var changes := Changes(l.client.log, KnownByServer(l).gen);
    if l.session.phase != Idle || (changes == [] && Known(l).gen == |l.server.log|) then l
    else l.(session := NO_SESSION.(phase := Sending, startGen := |l.client.log|, changes := changes))
  }

  /** The client reads the next changed document, in the state it has by now. */
  function SendStep(l: Link): Link {
    var ss := l.session;
    if ss.phase != Sending || |ss.sent| >= |ss.changes| then l
    else
      var d := ss.changes[|ss.sent|].docId;
      if d !in l.client.docs then l.(session := NO_SESSION)
      else l.(session := ss.(sent := ss.sent + [l.client.docs[d]]))
  }

  /** The server takes in the next document; conflicts are not stored but will be returned. */
  function InsertStep(l: Link): Link {
    var ss := l.session;
    var k := |ss.outcomes|;
    if ss.phase != Sending || k >= |ss.sent| || k >= |ss.changes| then l
    else
      var c := ss.changes[k];
      var taken := Merge(l.server, c.docId, ss.sent[k], false);
      if ValidateSource(l.server, l.client.uid, PointOf(c)).Some? || taken.Err? then l.(session := NO_SESSION)
      else
        var o, server := taken.value.outcome, taken.value.replica;
        l.(server := server,
           session := ss.(
             outcomes := ss.outcomes + [o],
             seenIds := if Settles(o) then ss.seenIds[c.docId := |server.log|] else ss.seenIds,
             unrecorded := Some(PointOf(c))))
  }

  /** The server remembers how much of the client's log it has taken in, at the latest when a batch ends. */
  function RecordStep(l: Link): Link {
    var ss := l.session;
    if ss.phase != Sending || ss.unrecorded == None then l
    else l.(server := SetKnown(l.server, l.client.uid, ss.unrecorded.value), session := ss.(unrecorded := None))
  }

  function FindStep(l: Link): Link {
    var ss := l.session;
    if ss.phase != Sending || |ss.outcomes| < |ss.changes| then l
    else l.(session := ss.(
      phase := Receiving,
      newPoint := Tip(l.server.log),
      toReturn := ToReturn(Changes(l.server.log, Known(l).gen), ss.seenIds)))
  }

  /** The server reads the next document to return, in the state it has by now. */
  function ReturnStep(l: Link): Link {
    var ss := l.session;
    if ss.phase != Receiving || |ss.returned| >= |ss.toReturn| then l
    else
      var d := ss.toReturn[|ss.returned|].docId;
      if d !in l.server.docs then l.(session := NO_SESSION)
      else l.(session := ss.(returned := ss.returned + [l.server.docs[d]]))
  }

  /**
   * The client takes in the next returned document, keeping its own version as a conflict. If that
   * raises, the next one is taken in all the same.
   */
  function DeliverStep(l: Link): Link {
    var ss := l.session;
    if ss.phase != Receiving || ss.delivered >= |ss.returned| || ss.delivered >= |ss.toReturn| then l
    else
      var c, v := ss.toReturn[ss.delivered], ss.returned[ss.delivered];
      var put := PutDocIfNewer(l.client, c.docId, v, true, l.server.uid, PointOf(c));
      var client := AfterPut(l.client, c.docId, v, true, l.server.uid, PointOf(c));
      l.(client := client,
         session := ss.(
           delivered := ss.delivered + 1,
           numInserted := ss.numInserted + (if put.Ok? && Counts(put.value.outcome) then 1 else 0),
           numLogged := ss.numLogged + (if |client.log| > |l.client.log| then 1 else 0)),
         skipped := if put.Ok? then l.skipped - {c.docId} else l.skipped + {c.docId})
  }

  /** Every document was handed on: the client notes the server's generation as reported. */
  function CompleteStep(l: Link): Link {
    var ss := l.session;
    if ss.phase != Receiving || ss.delivered < |ss.toReturn| then l
    else l.(client := SetKnown(l.client, l.server.uid, ss.newPoint), session := ss.(phase := Finished))
  }

  /** Whether the client's log grew by this session's insertions only. */
  function CheckGaplessStep(l: Link): Link {
    var ss := l.session;
    if ss.phase != Finished then l
    else if |l.client.log| == ss.startGen + ss.numInserted && ss.numInserted > 0 then
      l.(session := ss.(gapless := Some(Tip(l.client.log))))
    else l.(session := NO_SESSION)
  }

  function RecordInfoStep(l: Link): Link {
    var ss := l.session;
    if ss.phase != Finished || ss.gapless == None then l
    else l.(server := SetKnown(l.server, l.client.uid, ss.gapless.value), session := NO_SESSION)
  }

  function Advance(l: Link, step: SyncStep): Link {
    match step
    case Start => StartStep(l)
    case Send => SendStep(l)
    case Insert => InsertStep(l)
    case Record => RecordStep(l)
    case Find => FindStep(l)
    case Return => ReturnStep(l)
    case Deliver => DeliverStep(l)
    case Complete => CompleteStep(l)
    case CheckGapless => CheckGaplessStep(l)
    case RecordInfo => RecordInfoStep(l)
    case Abort => l.(session := NO_SESSION)
  }
}
