/** The download stream: lines are put together again from chunks of any size. */
module Receiver {
  import opened Framing
  import opened Texts
  import opened Wrappers

  // ---------- lines ended by CR LF ----------

  function SplitCrLf(s: string): (parts: seq<string>)
    ensures parts != []
  {
    if |s| < 2 then [s]
    else if s[0] == '\r' && s[1] == '\n' then [""] + SplitCrLf(s[2..])
    else Prefixed(s[0], SplitCrLf(s[1..]))
  }

  function Prefixed(c: char, parts: seq<string>): seq<string>
    requires parts != []
  {
    [[c] + parts[0]] + parts[1..]
  }

  function Complete(s: string): seq<string> {
    var parts := SplitCrLf(s);
    parts[..|parts| - 1]
  }

  function Unfinished(s: string): string {
    var parts := SplitCrLf(s);
    parts[|parts| - 1]
  }

  lemma {:induction false} OnePartIsAll(s: string)
    requires |SplitCrLf(s)| == 1
    ensures SplitCrLf(s) == [s]
  {
    if |s| >= 2 {
      OnePartIsAll(s[1..]);
      assert [s[0]] + s[1..] == s;
    }
  }

  lemma PrefixedInFront(c: char, parts: seq<string>, more: seq<string>)
    requires parts != []
    ensures Prefixed(c, parts + more) == Prefixed(c, parts) + more
  {}

  lemma SplitFirstLine(s: string, b: string)
    requires |s| >= 2
    ensures (s + b)[1..] == s[1..] + b && (s + b)[2..] == s[2..] + b
    ensures SplitCrLf(s) ==
      if s[0] == '\r' && s[1] == '\n' then [""] + SplitCrLf(s[2..]) else Prefixed(s[0], SplitCrLf(s[1..]))
    ensures SplitCrLf(s + b) ==
      if s[0] == '\r' && s[1] == '\n' then [""] + SplitCrLf(s[2..] + b) else Prefixed(s[0], SplitCrLf(s[1..] + b))
  {
    assert (s + b)[0] == s[0] && (s + b)[1] == s[1];
    assert (s + b)[1..] == s[1..] + b && (s + b)[2..] == s[2..] + b;
  }

  lemma ShortSplit(s: string)
    requires |s| < 2
    ensures SplitCrLf(s) == [s]
  {}

  lemma PrefixedParts(c: char, parts: seq<string>)
    requires |parts| > 1
    ensures var n, all := |parts| - 1, Prefixed(c, parts);
      all[..n] == Prefixed(c, parts[..n]) && all[n] == parts[n] && |all| == n + 1
  {}

  /** What was complete stays as it is; the rest is split together with what comes. */
  lemma {:induction false} SplitAppend(a: string, b: string)
    ensures SplitCrLf(a + b) == Complete(a) + SplitCrLf(Unfinished(a) + b)
  {
    hide SplitCrLf, Prefixed;
    if |a| < 2 {
      ShortSplit(a);
    } else if |SplitCrLf(a)| == 1 {
      OnePartIsAll(a);
    } else {
      SplitFirstLine(a, b);
      if a[0] == '\r' && a[1] == '\n' {
        SplitAppend(a[2..], b);
        assert Complete(a) == [""] + Complete(a[2..]);
      } else {
        SplitAppend(a[1..], b);
        PrefixedLength(a[0], SplitCrLf(a[1..]));
        PrefixedParts(a[0], SplitCrLf(a[1..]));
        PrefixedInFront(a[0], Complete(a[1..]), SplitCrLf(Unfinished(a[1..]) + b));
      }
    }
  }

  lemma PrefixedLength(c: char, parts: seq<string>)
    requires parts != []
    ensures |Prefixed(c, parts)| == |parts|
  {}

  lemma {:induction false} NoNewLine(r: string, b: string)
    requires SplitCrLf(r) == [r] && '\n' !in b
    ensures SplitCrLf(r + b) == [r + b]
  {
    var s := r + b;
    if |s| >= 2 {
      if r == "" {
        assert SplitCrLf("") == [""] && s[1..] == "" + b[1..] && s[1] in b;
        NoNewLine("", b[1..]);
      } else {
        assert s[1..] == r[1..] + b;
        assert |r| == 1 ==> s[1] in b;
        assert |r| >= 2 ==> |SplitCrLf(r[1..])| == 1;
        OnePartIsAll(r[1..]);
        NoNewLine(r[1..], b);
      }
      assert [s[0]] + s[1..] == s;
    }
  }

  lemma {:induction false} UnfinishedIsOnePart(s: string)
    ensures SplitCrLf(Unfinished(s)) == [Unfinished(s)]
  {
    if |s| >= 2 {
      if s[0] == '\r' && s[1] == '\n' {
        UnfinishedIsOnePart(s[2..]);
      } else {
        UnfinishedIsOnePart(s[1..]);
        if |SplitCrLf(s)| == 1 {
          OnePartIsAll(s);
        }
      }
    }
  }

  /** One more chunk: the lines it completes, and what is left over. */
  lemma ChunkArrives(sofar: string, data: string)
    ensures Complete(sofar + data) == Complete(sofar) + Complete(Unfinished(sofar) + data)
    ensures Unfinished(sofar + data) == Unfinished(Unfinished(sofar) + data)
    ensures '\n' !in data ==>
      Complete(sofar + data) == Complete(sofar) && Unfinished(sofar + data) == Unfinished(sofar) + data
  {
    SplitAppend(sofar, data);
    UnfinishedIsOnePart(sofar);
    if '\n' !in data {
      NoNewLine(Unfinished(sofar), data);
    }
    hide SplitCrLf;
  }

  // ---------- what the lines mean ----------

  /** `keys` reads a line as a JSON object: its keys, or `None` if it is not one. */
  type Reader = string -> Option<set<string>>

  datatype Reading = Reading(
    line: nat,
    finished: bool,
    broken: bool,
    metadata: string,
    currentDoc: string,
    docs: seq<(string, Option<string>)>)

  const BEGIN := Reading(0, false, false, "", "", [])

  predicate Mentions(s: string, word: string) {
    word <= s || (s != "" && Mentions(s[1..], word))
  }

  /** Line 0 opens the stream, line 1 is the metadata, then descriptions and contents alternate. */
  function Interpret(keys: Reader, st: Reading, line: string): Reading {
    if st.finished then st.(broken := true)
    else if line == "]" then st.(finished := true)
    else if st.line == 0 then st.(broken := line != "[")
    else if st.line == 1 then st.(metadata := line, broken := Mentions(line, "error") || keys(line) == None)
    else if st.line % 2 == 0 then
      st.(currentDoc := line, broken := keys(line) == None || "error" in keys(line).value)
    else st.(docs := st.docs + [(st.currentDoc, OrNone(Strip(line)))])
  }

  /** After an error nothing more is read. */
  function Take(keys: Reader, st: Reading, raw: string): Reading {
    if st.broken then st
    else
      var next := Interpret(keys, st, StripComma(raw).0);
      if next.broken then next else next.(line := st.line + 1)
  }

  function TakeAll(keys: Reader, st: Reading, lines: seq<string>): Reading {
    if lines == [] then st else Take(keys, TakeAll(keys, st, lines[..|lines| - 1]), lines[|lines| - 1])
  }

  lemma {:induction false} TakeAllAppend(keys: Reader, st: Reading, a: seq<string>, b: seq<string>)
    ensures TakeAll(keys, st, a + b) == TakeAll(keys, TakeAll(keys, st, a), b)
  {
    if b == [] {
      assert a + b == a;
    } else {
      assert (a + b)[..|a + b| - 1] == a + b[..|b| - 1];
      TakeAllAppend(keys, st, a, b[..|b| - 1]);
    }
  }

  lemma {:induction false} BrokenStays(keys: Reader, st: Reading, lines: seq<string>)
    requires st.broken
    ensures TakeAll(keys, st, lines) == st
  {
    if lines != [] {
      BrokenStays(keys, st, lines[..|lines| - 1]);
    }
  }

  // ---------- the protocol object ----------

  /** A buffer that is written from its position on; what lies beyond the position is stale. */
  class StringIO {
    var text: string
    var pos: nat

    constructor ()
      ensures Valid() && Seen() == ""
    {
      text, pos := "", 0;
    }

    ghost predicate Valid()
      reads this
    {
      pos <= |text|
    }

    function Seen(): string
      requires Valid()
      reads this
    {
      text[..pos]
    }

    method Write(data: string)
      requires Valid()
      modifies this
      ensures Valid() && Seen() == old(Seen()) + data
    {
      var end := pos + |data|;
      text := text[..pos] + data + (if end < |text| then text[end..] else "");
      pos := end;
    }

    method Rewind()
      requires Valid()
      modifies this`pos
      ensures Valid() && Seen() == ""
    {
      pos := 0;
    }
  }

  /** How the transfer of a response ended. */
  datatype StreamEnd = ResponseDone | PotentialDataLoss | Failed

  class DocStreamReceiver {
    const keys: Reader
    const buffer: StringIO
    var reading: Reading
    ghost var received: string

    constructor (keys: Reader)
      ensures this.keys == keys && Valid() && received == "" && fresh(buffer)
    {
      this.keys := keys;
      buffer := new StringIO();
      reading := BEGIN;
      received := "";
    }

    /** The state depends on the bytes received, not on how they were cut into chunks. */
    ghost predicate Valid()
      reads this, buffer
    {
      && buffer.Valid()
      && buffer.Seen() == Unfinished(received)
      && reading == TakeAll(keys, BEGIN, Complete(received))
    }

    method ConsumeBufferLines() returns (lines: seq<string>)
      requires buffer.Valid()
      modifies buffer
      ensures buffer.Valid() && buffer.Seen() == Unfinished(old(buffer.Seen())) && lines == Complete(old(buffer.Seen()))
    {
      hide SplitCrLf;
      var content := buffer.text[..buffer.pos];
      buffer.Rewind();
      var parts := SplitCrLf(content);
      buffer.Write(parts[|parts| - 1]);
      lines := parts[..|parts| - 1];
    }

    method DataReceived(data: string) returns (ok: bool)
      requires Valid() && !reading.broken
      modifies this, buffer
      ensures Valid() && received == old(received) + data && ok == !reading.broken
    {
      hide TakeAll, Take, SplitCrLf, Complete, Unfinished;
      ChunkArrives(received, data);
      received := received + data;
      buffer.Write(data);
      if '\n' !in data {
        return true;
      }
      var lines := ConsumeBufferLines();
      TakeAllAppend(keys, BEGIN, Complete(old(received)), lines);
      ok := TakeLines(lines);
    }

    method TakeLines(lines: seq<string>) returns (ok: bool)
      requires !reading.broken
      modifies this`reading
      ensures reading == TakeAll(keys, old(reading), lines) && ok == !reading.broken
    {
      assert TakeAll(keys, reading, []) == reading;
      for i := 0 to |lines|
        invariant !reading.broken && reading == TakeAll(keys, old(reading), lines[..i])
      {
        assert lines[..i + 1][..i] == lines[..i];
        reading := Take(keys, reading, lines[i]);
        if reading.broken {
          TakeAllAppend(keys, old(reading), lines[..i + 1], lines[i + 1..]);
          assert lines[..i + 1] + lines[i + 1..] == lines;
          BrokenStays(keys, reading, lines[i + 1..]);
          return false;
        }
      }
      assert lines[..|lines|] == lines;
      return true;
    }

    /**
     * A response that ended properly, with status 200 or 201, yields the metadata. Every other end
     * is an error; which one depends on whether the bracket was seen.
     */
    method ConnectionLost(end: StreamEnd, status: int) returns (r: Result<string>)
      requires Valid()
      ensures end.ResponseDone? ==> r == if status in {200, 201} then Ok(reading.metadata) else Err(HttpError)
      ensures !end.ResponseDone? ==> r.Err? && (r.error == BrokenSyncStream <==> !reading.finished)
      ensures !end.ResponseDone? && reading.finished ==>
        r.error == if end.PotentialDataLoss? then PartialDownload else ConnectionFailed
    {
      if !end.ResponseDone? && !reading.finished {
        return Err(BrokenSyncStream);
      }
      match end
      case ResponseDone =>
        return if status == 200 || status == 201 then Ok(reading.metadata) else Err(HttpError);
      case PotentialDataLoss =>
        return Err(PartialDownload);
      case Failed =>
        return Err(ConnectionFailed);
    }
  }

  // ---------- what the server sends ----------

  /** A document to return: the text of its description, and its content, empty for a tombstone. */
  datatype Sent = Sent(info: string, content: string)

  function Entries(docs: seq<Sent>): seq<string> {
    if docs == [] then [] else [docs[0].info, docs[0].content] + Entries(docs[1..])
  }

  function StreamText(first: string, rest: seq<string>): string {
    "[" + "\r\n" + (first + Listed(rest) + "\r\n]\r\n")
  }

  class Responder {
    var written: string
    var started: bool
    var hasEntry: bool

    constructor ()
      ensures written == "" && !started && !hasEntry
    {
      written, started, hasEntry := "", false, false;
    }

    method StartStream()
      requires !started
      modifies this
      ensures started && !hasEntry && written == old(written) + "["
    {
      started, hasEntry := true, false;
      written := written + "[";
    }

    method StreamEntry(entry: string)
      requires started
      modifies this
      ensures started && hasEntry
      ensures written == old(written) + (if old(hasEntry) then ",\r\n" else "\r\n") + entry
    {
      if !hasEntry {
        hasEntry := true;
        written := written + "\r\n";
      } else {
        written := written + ",\r\n";
      }
      written := written + entry;
    }

    method EndStream()
      requires started
      modifies this`written
      ensures written == old(written) + "\r\n]\r\n"
    {
      written := written + "\r\n]\r\n";
    }

    /** The metadata first, then two entries for every document. */
    method SendDocs(metadata: string, docs: seq<Sent>)
      requires !started && written == ""
      modifies this
      ensures written == StreamText(metadata, Entries(docs))
    {
      hide Listed, Entries;
      NothingListed();
      StartStream();
      StreamEntry(metadata);
      assert written == "[" + "\r\n" + (metadata + Listed(Entries(docs[..0])));
      for i := 0 to |docs|
        invariant started && hasEntry
        invariant written == "[" + "\r\n" + (metadata + Listed(Entries(docs[..i])))
      {
        OneDocMore(docs, i);
        StreamEntry(docs[i].info);
        StreamEntry(docs[i].content);
        ghost var before := Listed(Entries(docs[..i]));
        assert written == "[" + "\r\n" + (metadata + (before + ",\r\n" + docs[i].info + ",\r\n" + docs[i].content));
      }
      assert docs[..|docs|] == docs;
      EndStream();
    }
  }

  lemma NothingListed()
    ensures Listed([]) == "" && Entries([]) == []
  {}

  lemma {:induction false} EntriesAppend(a: seq<Sent>, b: seq<Sent>)
    ensures Entries(a + b) == Entries(a) + Entries(b)
  {
    if a == [] {
      assert a + b == b;
    } else {
      EntriesAppend(a[1..], b);
      assert (a + b)[1..] == a[1..] + b;
    }
  }

  lemma OneDocMore(docs: seq<Sent>, i: nat)
    requires i < |docs|
    ensures Listed(Entries(docs[..i + 1])) ==
      Listed(Entries(docs[..i])) + ",\r\n" + docs[i].info + ",\r\n" + docs[i].content
  {
    var pair := [docs[i].info, docs[i].content];
    EntriesAppend(docs[..i], [docs[i]]);
    assert docs[..i + 1] == docs[..i] + [docs[i]];
    assert Entries([docs[i]]) == pair + Entries([]) == pair;
    ListedAppend(Entries(docs[..i]), pair);
    assert pair[1..] == [docs[i].content] && pair[1..][1..] == [];
    assert Listed([docs[i].content]) == ",\r\n" + docs[i].content + Listed([]);
    assert Listed(pair) == ",\r\n" + docs[i].info + (",\r\n" + docs[i].content + "");
  }

  // ---------- the round trip ----------

  lemma {:induction false} SplitAtCrLf(a: string, rest: string)
    requires '\n' !in a
    ensures SplitCrLf(a + "\r\n" + rest) == [a] + SplitCrLf(rest)
  {
    var s := a + "\r\n" + rest;
    if a == "" {
      assert s[2..] == rest;
    } else {
      SplitAtCrLf(a[1..], rest);
      assert s[1..] == a[1..] + "\r\n" + rest;
      assert |a| > 1 ==> s[1] == a[1] && a[1] in a;
      assert [a[0]] + a[1..] == a;
    }
  }

  /** The lines of the entries: a comma after all but the last. */
  function Lined(first: string, rest: seq<string>): seq<string>
    decreases rest
  {
    if rest == [] then [first] else [first + ","] + Lined(rest[0], rest[1..])
  }

  lemma {:induction false} EntriesAreLines(first: string, rest: seq<string>)
    requires '\n' !in first && forall e <- rest :: '\n' !in e
    ensures SplitCrLf(first + Listed(rest) + "\r\n]\r\n") == Lined(first, rest) + ["]", ""]
    decreases rest
  {
    hide SplitCrLf;
    if rest == [] {
      assert first + "" + "\r\n]\r\n" == first + "\r\n" + ("]" + "\r\n" + "");
      SplitAtCrLf(first, "]" + "\r\n" + "");
      SplitAtCrLf("]", "");
      EmptySplit();
    } else {
      EntriesAreLines(rest[0], rest[1..]);
      var tail := rest[0] + Listed(rest[1..]) + "\r\n]\r\n";
      assert first + Listed(rest) + "\r\n]\r\n" == (first + ",") + "\r\n" + tail;
      SplitAtCrLf(first + ",", tail);
    }
  }

  lemma EmptySplit()
    ensures SplitCrLf("") == [""]
  {}

  lemma StreamIsLines(metadata: string, rest: seq<string>)
    requires '\n' !in metadata && forall e <- rest :: '\n' !in e
    ensures SplitCrLf(StreamText(metadata, rest)) == ["["] + (Lined(metadata, rest) + ["]", ""])
    ensures Complete(StreamText(metadata, rest)) == ["["] + (Lined(metadata, rest) + ["]"])
    ensures Unfinished(StreamText(metadata, rest)) == ""
  {
    hide SplitCrLf, Lined, Listed;
    EntriesAreLines(metadata, rest);
    SplitAtCrLf("[", metadata + Listed(rest) + "\r\n]\r\n");
    var front := ["["] + Lined(metadata, rest);
    assert ["["] + (Lined(metadata, rest) + ["]", ""]) == front + ["]", ""];
    assert (front + ["]", ""])[..|front| + 1] == front + ["]"] == ["["] + (Lined(metadata, rest) + ["]"]);
  }

  /** A line that stands for nothing but itself. */
  predicate Plain(s: string) {
    '\n' !in s && s != "]" && (s != "" ==> s[|s| - 1] != ',')
  }

  ghost predicate CanSend(keys: Reader, docs: seq<Sent>) {
    forall d <- docs ::
      && Plain(d.info) && keys(d.info).Some? && "error" !in keys(d.info).value
      && Plain(d.content) && Stripped(d.content)
  }

  ghost predicate IsMetadata(keys: Reader, s: string) {
    Plain(s) && !Mentions(s, "error") && keys(s).Some?
  }

  function Delivered(docs: seq<Sent>): seq<(string, Option<string>)> {
    if docs == [] then [] else [(docs[0].info, OrNone(docs[0].content))] + Delivered(docs[1..])
  }

  lemma TakePlain(keys: Reader, st: Reading, s: string, more: bool)
    requires Plain(s) && !st.broken
    ensures var raw := if more then s + "," else s;
      var next := Interpret(keys, st, s);
      Take(keys, st, raw) == if next.broken then next else next.(line := st.line + 1)
  {
    assert (s + ",")[..|s|] == s;
    hide Interpret;
  }

  lemma TakeTwo(keys: Reader, st: Reading, a: string, b: string, rest: seq<string>)
    ensures TakeAll(keys, st, [a] + ([b] + rest)) == TakeAll(keys, Take(keys, Take(keys, st, a), b), rest)
  {
    hide Take;
    TakeAllAppend(keys, st, [a], [b] + rest);
    TakeAllAppend(keys, TakeAll(keys, st, [a]), [b], rest);
    TakeOne(keys, st, a);
    TakeOne(keys, Take(keys, st, a), b);
  }

  lemma TakeOne(keys: Reader, st: Reading, a: string)
    ensures TakeAll(keys, st, [a]) == Take(keys, st, a)
  {
    assert [a][..0] == [];
    hide Take;
    assert TakeAll(keys, st, []) == st;
  }

  lemma PairIsTaken(keys: Reader, st: Reading, d: Sent, more: bool)
    requires CanSend(keys, [d]) && !st.broken && !st.finished && st.line >= 2 && st.line % 2 == 0
    ensures var end := Take(keys, Take(keys, st, d.info + ","), if more then d.content + "," else d.content);
      end == st.(line := st.line + 2, currentDoc := d.info, docs := st.docs + [(d.info, OrNone(d.content))])
  {
    hide Strip, Mentions, Stripped;
    assert d in [d];
    TakePlain(keys, st, d.info, true);
    StripStripped(d.content);
    var mid := st.(line := st.line + 1, currentDoc := d.info);
    assert Take(keys, st, d.info + ",") == mid;
    TakePlain(keys, mid, d.content, more);
    hide Take, Plain;
  }

  lemma LinedPairs(docs: seq<Sent>)
    requires docs != []
    ensures var d, entries, rest := docs[0], Entries(docs), Entries(docs[1..]);
      && entries != []
      && Lined(entries[0], entries[1..]) ==
        if docs[1..] == [] then [d.info + ","] + ([d.content] + [])
        else [d.info + ","] + ([d.content + ","] + Lined(rest[0], rest[1..]))
  {
    var d, entries, rest := docs[0], Entries(docs), Entries(docs[1..]);
    assert entries[1..] == [d.content] + rest && entries[1..][1..] == rest;
  }

  /** From a line where a description is expected, all documents are handed on. */
  lemma {:induction false} DocsAreTaken(keys: Reader, st: Reading, docs: seq<Sent>)
    requires docs != [] && CanSend(keys, docs)
    requires !st.broken && !st.finished && st.line >= 2 && st.line % 2 == 0
    ensures Entries(docs) != []
    ensures var end := TakeAll(keys, st, Lined(Entries(docs)[0], Entries(docs)[1..]));
      && !end.broken && !end.finished && end.line >= 2 && end.metadata == st.metadata
      && end.docs == st.docs + Delivered(docs)
    decreases docs
  {
    hide Take, Lined, Plain, Stripped, TakeAll;
    var d, more := docs[0], docs[1..];
    assert d in docs;
    LinedPairs(docs);
    PairIsTaken(keys, st, d, more != []);
    assert more != [] ==> CanSend(keys, more);
    assert Delivered(docs) == [(d.info, OrNone(d.content))] + Delivered(more);
    hide Delivered, CanSend, Entries;
    var content := if more != [] then d.content + "," else d.content;
    var last := Take(keys, Take(keys, st, d.info + ","), content);
    var pair := [(d.info, OrNone(d.content))];
    if more == [] {
      TakeTwo(keys, st, d.info + ",", content, []);
      NothingMore(keys, last);
      assert pair + [] == pair;
    } else {
      TakeTwo(keys, st, d.info + ",", content, Lined(Entries(more)[0], Entries(more)[1..]));
      DocsAreTaken(keys, last, more);
      assert (st.docs + pair) + Delivered(more) == st.docs + (pair + Delivered(more));
    }
  }

  lemma NothingMore(keys: Reader, st: Reading)
    ensures Delivered([]) == [] && TakeAll(keys, st, []) == st
  {}

  lemma HeadIsTaken(keys: Reader, metadata: string, more: bool)
    requires IsMetadata(keys, metadata)
    ensures Take(keys, Take(keys, BEGIN, "["), if more then metadata + "," else metadata) ==
      BEGIN.(line := 2, metadata := metadata)
  {
    hide Mentions;
    var st := BEGIN.(line := 1);
    assert Take(keys, BEGIN, "[") == st;
    TakePlain(keys, st, metadata, more);
  }

  lemma BracketIsTaken(keys: Reader, st: Reading)
    requires !st.broken && !st.finished
    ensures Take(keys, st, "]") == st.(finished := true, line := st.line + 1)
  {}

  /** The stream as the server sends it is read back as exactly its documents, in order, and finished. */
  lemma DownloadIsReadBack(keys: Reader, metadata: string, docs: seq<Sent>)
    requires IsMetadata(keys, metadata) && CanSend(keys, docs)
    ensures var end := TakeAll(keys, BEGIN, Complete(StreamText(metadata, Entries(docs))));
      && !end.broken
      && end.finished
      && end.metadata == metadata
      && |end.docs| == |docs|
      && forall i :: 0 <= i < |docs| ==>
           end.docs[i] == (docs[i].info, if docs[i].content == "" then None else Some(docs[i].content))
    ensures Unfinished(StreamText(metadata, Entries(docs))) == ""
  {
    hide *;
    DownloadIsDelivered(keys, metadata, docs);
    DeliveredExactly(docs);
  }

  lemma DownloadIsDelivered(keys: Reader, metadata: string, docs: seq<Sent>)
    requires IsMetadata(keys, metadata) && CanSend(keys, docs)
    ensures var end := TakeAll(keys, BEGIN, Complete(StreamText(metadata, Entries(docs))));
      !end.broken && end.finished && end.metadata == metadata && end.docs == Delivered(docs)
    ensures Unfinished(StreamText(metadata, Entries(docs))) == ""
  {
    SendableHasNoNewline(keys, docs);
    hide SplitCrLf, Mentions, Strip, StreamText, Complete, Unfinished, Take, CanSend;
    var rest := Entries(docs);
    StreamIsLines(metadata, rest);
    HeadIsTaken(keys, metadata, rest != []);
    var st := BEGIN.(line := 2, metadata := metadata);
    var first, tail := if rest != [] then metadata + "," else metadata, if rest == [] then [] else Lined(rest[0], rest[1..]);
    assert Lined(metadata, rest) == [first] + tail;
    hide Lined;
    assert ["["] + (([first] + tail) + ["]"]) == ["["] + ([first] + (tail + ["]"]));
    TakeTwo(keys, BEGIN, "[", first, tail + ["]"]);
    TakeAllAppend(keys, st, tail, ["]"]);
    if docs == [] {
      assert TakeAll(keys, st, []) == st && Delivered([]) == [];
    } else {
      DocsAreTaken(keys, st, docs);
      assert [] + Delivered(docs) == Delivered(docs);
    }
    TakeOne(keys, TakeAll(keys, st, tail), "]");
    BracketIsTaken(keys, TakeAll(keys, st, tail));
  }

  lemma {:induction false} DeliveredExactly(docs: seq<Sent>)
    ensures |Delivered(docs)| == |docs|
    ensures forall i :: 0 <= i < |docs| ==>
      Delivered(docs)[i] == (docs[i].info, if docs[i].content == "" then None else Some(docs[i].content))
  {
    if docs != [] {
      DeliveredExactly(docs[1..]);
    }
  }

  lemma {:induction false} SendableHasNoNewline(keys: Reader, docs: seq<Sent>)
    requires CanSend(keys, docs)
    ensures forall e <- Entries(docs) :: '\n' !in e
  {
    hide Stripped;
    if docs != [] {
      assert docs[0] in docs && forall d <- docs[1..] :: d in docs;
      SendableHasNoNewline(keys, docs[1..]);
    }
  }

  // ---------- cut short ----------

  lemma {:induction false} ReadingOnlyGrows(keys: Reader, st: Reading, lines: seq<string>)
    ensures var end := TakeAll(keys, st, lines);
      && st.docs <= end.docs
      && (st.broken ==> end.broken)
      && (st.finished && lines != [] ==> end.broken)
  {
    if lines != [] {
      ReadingOnlyGrows(keys, st, lines[..|lines| - 1]);
    }
  }

  /**
   * A download that breaks off anywhere has handed on a prefix of the documents, in order, without
   * an error, and never looks finished.
   */
  lemma CutDownloadIsAPrefix(keys: Reader, metadata: string, docs: seq<Sent>, p: string)
    requires IsMetadata(keys, metadata) && CanSend(keys, docs) && p < StreamText(metadata, Entries(docs))
    ensures var sofar := TakeAll(keys, BEGIN, Complete(p));
      && !sofar.broken
      && !sofar.finished
      && |sofar.docs| <= |docs|
      && forall i :: 0 <= i < |sofar.docs| ==>
           sofar.docs[i] == (docs[i].info, if docs[i].content == "" then None else Some(docs[i].content))
  {
    hide SplitCrLf, StreamText, TakeAll, IsMetadata, CanSend;
    var full := StreamText(metadata, Entries(docs));
    var missing := full[|p|..];
    assert full == p + missing;
    DownloadIsDelivered(keys, metadata, docs);
    DeliveredExactly(docs);
    SplitAppend(p, missing);
    var rest := Complete(Unfinished(p) + missing);
    assert Complete(full) == Complete(p) + rest;
    assert rest != [] by {
      if |SplitCrLf(Unfinished(p) + missing)| == 1 {
        OnePartIsAll(Unfinished(p) + missing);
      }
    }
    TakeAllAppend(keys, BEGIN, Complete(p), rest);
    ReadingOnlyGrows(keys, TakeAll(keys, BEGIN, Complete(p)), rest);
  }

  // ---------- the stream, character by character ----------

  lemma StreamOfNone(metadata: string)
    ensures StreamText(metadata, Entries([])) == "[\r\n" + metadata + "\r\n]\r\n"
  {
    NothingListed();
    hide Listed, Entries;
    assert StreamText(metadata, []) == "[" + "\r\n" + (metadata + "" + "\r\n]\r\n");
    assert "[" + "\r\n" == "[\r\n" && metadata + "" == metadata;
  }

  /** One more document goes before the end: its description on one line, its content on the next. */
  lemma StreamOfOneMore(metadata: string, docs: seq<Sent>, d: Sent)
    ensures exists before ::
      && StreamText(metadata, Entries(docs)) == before + "\r\n]\r\n"
      && StreamText(metadata, Entries(docs + [d])) == before + ",\r\n" + d.info + ",\r\n" + d.content + "\r\n]\r\n"
  {
    var listed := Listed(Entries(docs));
    OneDocMore(docs + [d], |docs|);
    assert (docs + [d])[..|docs|] == docs && (docs + [d])[..|docs| + 1] == docs + [d];
    var more := listed + ",\r\n" + d.info + ",\r\n" + d.content;
    assert Listed(Entries(docs + [d])) == more;
    assert StreamText(metadata, Entries(docs)) == "[" + "\r\n" + (metadata + listed + "\r\n]\r\n");
    assert StreamText(metadata, Entries(docs + [d])) == "[" + "\r\n" + (metadata + more + "\r\n]\r\n");
    hide *;
    var before := "[" + "\r\n" + (metadata + listed);
    Regrouped("[" + "\r\n", metadata, listed, "\r\n]\r\n");
    Regrouped("[" + "\r\n", metadata, more, "\r\n]\r\n");
    Regrouped("[" + "\r\n", metadata, listed, ",\r\n" + d.info + ",\r\n" + d.content);
    LastTwo(listed, ",\r\n", d);
    LastTwo(before, ",\r\n", d);
  }

  lemma Regrouped(a: string, b: string, c: string, e: string)
    ensures a + (b + c + e) == a + (b + c) + e
    ensures a + (b + (c + e)) == a + (b + c) + e
  {}

  lemma LastTwo(front: string, sep: string, d: Sent)
    ensures front + sep + d.info + sep + d.content == front + (sep + d.info + sep + d.content)
  {}

  // ---------- whatever is received ----------

  /** A line without the comma at its end. */
  ghost function Bare(raw: string): string {
    if raw != "" && raw[|raw| - 1] == ',' then raw[..|raw| - 1] else raw
  }

  ghost predicate Occurs(word: string, s: string) {
    exists before, after :: s == before + word + after
  }

  lemma {:induction false} MentionsExactly(s: string, word: string)
    requires word != ""
    ensures Mentions(s, word) <==> Occurs(word, s)
  {
    if word <= s {
      assert s == "" + word + s[|word|..];
    } else if s != "" {
      MentionsExactly(s[1..], word);
      OccursBehind(s, word);
    }
  }

  lemma OccursBehind(s: string, word: string)
    requires s != "" && word != "" && !(word <= s)
    ensures Occurs(word, s) <==> Occurs(word, s[1..])
  {
    if before, after :| s == before + word + after {
      assert before != "";
      assert s[1..] == before[1..] + word + after;
    }
    if before, after :| s[1..] == before + word + after {
      assert s == ([s[0]] + before) + word + after;
    }
  }

  /** A line that ends the stream with an error: after the bracket there may be none. */
  ghost predicate IsFault(keys: Reader, lines: seq<string>, k: nat)
    requires k < |lines|
  {
    var line := Bare(lines[k]);
    || (exists j :: 0 <= j < k && Bare(lines[j]) == "]")
    || (line != "]" &&
        if k == 0 then line != "["
        else if k == 1 then keys(line) == None || Occurs("error", line)
        else k % 2 == 0 && (keys(line) == None || "error" in keys(line).value))
  }

  /** What has been read of lines without a fault. */
  ghost predicate IsReadingOf(st: Reading, lines: seq<string>) {
    var n := if st.finished then |lines| - 1 else |lines|;
    && !st.broken
    && st.line == |lines|
    && (st.finished <==> lines != [] && Bare(lines[|lines| - 1]) == "]")
    && (n > 1 ==> st.metadata == Bare(lines[1]))
    && (n > 2 && n % 2 == 1 ==> st.currentDoc == Bare(lines[n - 1]))
    && AreDocsOf(st.docs, lines[..n])
  }

  /** Behind two lines a description and a content for every document; a blank content is none. */
  ghost predicate AreDocsOf(docs: seq<(string, Option<string>)>, lines: seq<string>) {
    && |docs| == (if |lines| < 2 then 0 else (|lines| - 2) / 2)
    && forall i :: 0 <= i < |docs| ==>
         && docs[i].0 == Bare(lines[2 * i + 2])
         && docs[i].1 == var content := Strip(Bare(lines[2 * i + 3])); if content == "" then None else Some(content)
  }

  /** Any lines at all: they break the stream exactly if one has a fault, and else are all read as they should be. */
  lemma {:induction false} LinesAreReadExactly(keys: Reader, lines: seq<string>)
    ensures var end := TakeAll(keys, BEGIN, lines);
      && (end.broken <==> exists k :: 0 <= k < |lines| && IsFault(keys, lines, k))
      && (!end.broken ==> IsReadingOf(end, lines))
  {
    if lines != [] {
      hide IsFault, IsReadingOf, Take, TakeAll;
      var init := lines[..|lines| - 1];
      LinesAreReadExactly(keys, init);
      LastLineIsTaken(keys, lines);
      FaultsOfOneMore(keys, lines);
      var st := TakeAll(keys, BEGIN, init);
      if !st.broken {
        LineIsReadExactly(keys, st, lines);
      }
    }
  }

  lemma LastLineIsTaken(keys: Reader, lines: seq<string>)
    requires lines != []
    ensures var st := TakeAll(keys, BEGIN, lines[..|lines| - 1]);
      var end := Take(keys, st, lines[|lines| - 1]);
      TakeAll(keys, BEGIN, lines) == end && (st.broken ==> end.broken)
  {
    hide Interpret;
  }

  lemma FaultsOfOneMore(keys: Reader, lines: seq<string>)
    requires lines != []
    ensures var init := lines[..|lines| - 1];
      && (forall k :: 0 <= k < |init| ==> (IsFault(keys, lines, k) <==> IsFault(keys, init, k)))
      && ((exists k :: 0 <= k < |lines| && IsFault(keys, lines, k)) <==>
           (exists k :: 0 <= k < |init| && IsFault(keys, init, k)) || IsFault(keys, lines, |init|))
  {
    hide IsFault;
    var n := |lines| - 1;
    assert lines[..n] + [lines[n]] == lines;
    forall k | 0 <= k < n ensures IsFault(keys, lines, k) <==> IsFault(keys, lines[..n], k) {
      FaultsStay(keys, lines[..n], [lines[n]], k);
    }
  }

  lemma FaultsStay(keys: Reader, lines: seq<string>, more: seq<string>, k: nat)
    requires k < |lines|
    ensures IsFault(keys, lines, k) <==> IsFault(keys, lines + more, k)
  {
    hide Occurs, Bare;
    assert forall j :: 0 <= j <= k ==> (lines + more)[j] == lines[j];
  }

  lemma LineIsReadExactly(keys: Reader, st: Reading, lines: seq<string>)
    requires lines != [] && IsReadingOf(st, lines[..|lines| - 1])
    requires forall j :: 0 <= j < |lines| - 1 ==> !IsFault(keys, lines, j)
    ensures var end := Take(keys, st, lines[|lines| - 1]);
      if IsFault(keys, lines, |lines| - 1) then end.broken else IsReadingOf(end, lines)
  {
    hide *;
    FaultBreaks(keys, st, lines);
    if !IsFault(keys, lines, |lines| - 1) {
      LineIsRead(keys, st, lines);
    }
  }

  lemma FaultBreaks(keys: Reader, st: Reading, lines: seq<string>)
    requires lines != [] && IsReadingOf(st, lines[..|lines| - 1])
    requires forall j :: 0 <= j < |lines| - 1 ==> !IsFault(keys, lines, j)
    ensures IsFault(keys, lines, |lines| - 1) <==> Take(keys, st, lines[|lines| - 1]).broken
  {
    hide Strip, Mentions, Occurs;
    var n := |lines| - 1;
    MentionsExactly(Bare(lines[n]), "error");
    assert st.finished <==> exists j :: 0 <= j < n && Bare(lines[j]) == "]" by {
      assert st.finished <==> n > 0 && Bare(lines[n - 1]) == "]";
      assert forall j :: 0 <= j < n && Bare(lines[j]) == "]" ==> j == n - 1 || IsFault(keys, lines, j + 1);
    }
  }

  lemma LineIsRead(keys: Reader, st: Reading, lines: seq<string>)
    requires lines != [] && IsReadingOf(st, lines[..|lines| - 1])
    requires !Take(keys, st, lines[|lines| - 1]).broken
    ensures IsReadingOf(Take(keys, st, lines[|lines| - 1]), lines)
  {
    hide Strip, Mentions;
    var n, end := |lines| - 1, Take(keys, st, lines[|lines| - 1]);
    var init, line := lines[..n], Bare(lines[n]);
    assert StripComma(lines[n]).0 == line;
    hide Bare, StripComma;
    assert lines[..n + 1] == lines && init[..n] == init && lines[..n] == init;
    DocsGoOn(st.docs, lines);
    hide AreDocsOf;
    assert !st.finished && end == Interpret(keys, st, line).(line := n + 1);
  }

  lemma DocsGoOn(docs: seq<(string, Option<string>)>, lines: seq<string>)
    requires lines != [] && AreDocsOf(docs, lines[..|lines| - 1])
    ensures |lines| <= 3 || |lines| % 2 == 1 ==> AreDocsOf(docs, lines)
    ensures |lines| > 3 && |lines| % 2 == 0 ==>
      AreDocsOf(docs + [(Bare(lines[|lines| - 2]), OrNone(Strip(Bare(lines[|lines| - 1]))))], lines)
  {
    hide Bare, Strip;
  }

  /** From a line with a fault on, nothing is handed on. */
  lemma FaultEndsTheStream(keys: Reader, lines: seq<string>, k: nat)
    requires k < |lines| && IsFault(keys, lines, k)
    ensures var end := TakeAll(keys, BEGIN, lines);
      end.broken && end.docs == TakeAll(keys, BEGIN, lines[..k]).docs
  {
    hide IsFault, TakeAll, Take;
    LinesAreReadExactly(keys, lines);
    LinesAreReadExactly(keys, lines[..k + 1]);
    FaultsStay(keys, lines[..k + 1], lines[k + 1..], k);
    assert lines[..k + 1] + lines[k + 1..] == lines && lines[..k] + [lines[k]] == lines[..k + 1];
    TakeAllAppend(keys, BEGIN, lines[..k + 1], lines[k + 1..]);
    TakeAllAppend(keys, BEGIN, lines[..k], [lines[k]]);
    var before := TakeAll(keys, BEGIN, lines[..k]);
    TakeOne(keys, before, lines[k]);
    FaultHandsNothingOn(keys, before, lines[k]);
    BrokenStays(keys, TakeAll(keys, BEGIN, lines[..k + 1]), lines[k + 1..]);
  }

  lemma FaultHandsNothingOn(keys: Reader, st: Reading, raw: string)
    requires Take(keys, st, raw).broken
    ensures Take(keys, st, raw).docs == st.docs
  {
    hide Strip, Mentions, StripComma;
  }
}
