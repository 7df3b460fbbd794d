/** The upload stream: the client prints it piece by piece, the server reads it line by line. */
module Framing {
  import opened Lines
  import opened Texts
  import opened Wrappers

  /** A document to upload: the text of its description and its content, if it has any. */
  datatype Upload = Upload(info: string, content: Option<string>)

  function ContentText(u: Upload): string {
    if u.content.Some? then u.content.value else ""
  }

  // ---------- the body as a whole ----------

  function EntryText(u: Upload): string {
    u.info + (",\r\n" + ContentText(u))
  }

  function EntryTexts(us: seq<Upload>): (texts: seq<string>)
    ensures |texts| == |us|
    ensures forall i :: 0 <= i < |us| ==> texts[i] == EntryText(us[i])
  {
    if us == [] then [] else [EntryText(us[0])] + EntryTexts(us[1..])
  }

  /** Every entry preceded by the comma and the line break that end what comes before it. */
  function Listed(entries: seq<string>): string {
    if entries == [] then "" else ",\r\n" + entries[0] + Listed(entries[1..])
  }

  function EntriesToStr(headers: string, entries: seq<string>, start: bool, end: bool): string {
    var data := if start then "[\r\n" + headers + Listed(entries) else Listed(entries);
    if end then data + "\r\n]" else data
  }

  function BodyText(headers: string, us: seq<Upload>): string {
    EntriesToStr(headers, EntryTexts(us), true, true)
  }

  lemma {:induction false} ListedAppend(a: seq<string>, b: seq<string>)
    ensures Listed(a + b) == Listed(a) + Listed(b)
  {
    if a == [] {
      assert a + b == b && "" + Listed(b) == Listed(b);
    } else {
      ListedAppend(a[1..], b);
      assert (a + b)[1..] == a[1..] + b;
      assert ",\r\n" + a[0] + (Listed(a[1..]) + Listed(b)) == ",\r\n" + a[0] + Listed(a[1..]) + Listed(b);
    }
  }

  // ---------- printing ----------

  class RequestBody {
    const headers: string
    var entries: seq<string>
    var consumed: nat

    constructor (headers: string)
      ensures this.headers == headers && entries == [] && consumed == 0
    {
      this.headers := headers;
      entries, consumed := [], 0;
    }

    method InsertInfo(u: Upload)
      modifies this`entries
      ensures entries == old(entries) +
        [match u.content case Some(content) => u.info + (",\r\n" + content) case None => u.info + (",\r\n" + "")]
    {
      var content := ",\r\n" + if u.content.Some? then u.content.value else "";
      entries := entries + [u.info + content];
    }

    /** The first pop opens the stream; one that leaves nothing behind closes it, unless told not to. */
    method Pop(amount: nat, leaveOpen: bool) returns (data: string)
      modifies this
      ensures var n := if |old(entries)| < amount then |old(entries)| else amount;
        && entries == old(entries)[n..]
        && consumed == old(consumed) + n
        && data == EntriesToStr(headers, old(entries)[..n], old(consumed) == 0, !leaveOpen && entries == [])
    {
      var start := consumed == 0;
      var n := if |entries| < amount then |entries| else amount;
      var popped := entries[..n];
      entries := entries[n..];
      consumed := consumed + n;
      var end := if leaveOpen then false else |entries| == 0;
      data := EntriesToStr(headers, popped, start, end);
    }

    /** The whole body in one piece. */
    method ToText() returns (data: string)
      modifies this
      ensures old(consumed) == 0 ==> data == EntriesToStr(headers, old(entries), true, true)
    {
      assert entries[..|entries|] == entries;
      data := Pop(|entries|, false);
    }
  }

  /**
   * Prepares and writes one document after the other, until there are no more or the transport
   * asks to stop; then the stream is closed.
   */
  method StartProducing(body: RequestBody, calls: seq<Upload>, stopAfter: nat) returns (written: string)
    requires body.consumed == 0 && body.entries == []
    modifies body
    ensures var n := if |calls| < stopAfter then |calls| else stopAfter;
      written == BodyText(body.headers, calls[..n])
  {
    hide EntriesToStr, EntryText, EntryTexts;
    written := "";
    var i := 0;
    while i < |calls| && i < stopAfter
      invariant i <= |calls| && i <= stopAfter && body.consumed == i && body.entries == []
      invariant written == if i == 0 then "" else EntriesToStr(body.headers, EntryTexts(calls[..i]), true, false)
    {
      body.InsertInfo(calls[i]);
      EntryTextExactly(calls[i]);
      assert body.entries[..1] == [EntryText(calls[i])] && body.entries[1..] == [];
      var data := body.Pop(1, true);
      PieceIsNext(body.headers, calls, i);
      written := written + data;
      i := i + 1;
    }
    assert body.entries[..0] == [] && body.entries[0..] == [];
    var data := body.Pop(0, false);
    LastPiece(body.headers, EntryTexts(calls[..i]));
    assert i == 0 ==> calls[..i] == [];
    NoTexts();
    written := written + data;
  }

  lemma EntryTextExactly(u: Upload)
    ensures EntryText(u) ==
      match u.content case Some(content) => u.info + (",\r\n" + content) case None => u.info + (",\r\n" + "")
  {}

  lemma NoTexts()
    ensures EntryTexts([]) == []
  {}

  lemma PieceIsNext(headers: string, calls: seq<Upload>, i: nat)
    requires i < |calls|
    ensures var before, e := EntryTexts(calls[..i]), [EntryText(calls[i])];
      var after := EntryTexts(calls[..i + 1]);
      && EntriesToStr(headers, before, true, false) + EntriesToStr(headers, e, false, false) ==
        EntriesToStr(headers, after, true, false)
      && (i == 0 ==> "" + EntriesToStr(headers, e, true, false) == EntriesToStr(headers, after, true, false))
  {
    hide EntryText, Listed;
    var before, e := EntryTexts(calls[..i]), [EntryText(calls[i])];
    ListedAppend(before, e);
    assert EntryTexts(calls[..i + 1]) == before + e;
    assert i == 0 ==> before == [] && before + e == e;
  }

  lemma LastPiece(headers: string, texts: seq<string>)
    ensures EntriesToStr(headers, texts, true, false) + EntriesToStr(headers, [], false, true) ==
      EntriesToStr(headers, texts, true, true)
    ensures "" + EntriesToStr(headers, [], true, true) == EntriesToStr(headers, [], true, true)
  {
    assert Listed([]) == "";
    hide Listed;
  }

  // ---------- reading ----------

  function StripComma(line: string): (string, bool) {
    if line != "" && line[|line| - 1] == ',' then (line[..|line| - 1], true) else (line, false)
  }

  /** The documents handed on, as (description, content) pairs, and whether the stream was accepted. */
  datatype Intake = Intake(puts: seq<(string, Option<string>)>, ok: bool)

  const REFUSED := Intake([], false)

  function OrNone(content: string): Option<string> {
    if content == "" then None else Some(content)
  }

  function Before(puts: seq<(string, Option<string>)>, more: Intake): Intake {
    Intake(puts + more.puts, more.ok)
  }

  lemma BeforeTwice(a: seq<(string, Option<string>)>, b: seq<(string, Option<string>)>, more: Intake)
    ensures Before(a, Before(b, more)) == Before(a + b, more)
    ensures Before([], more) == more
    ensures Before(a, REFUSED) == Intake(a, false)
  {
    assert a + (b + more.puts) == (a + b) + more.puts;
  }

  /** `comma` says whether the line before ended in one. */
  function ReadEntries(input: string, comma: bool, maxSize: nat): Intake
    decreases |input|
  {
    var line, after := TakeLine(input), DropLine(input);
    var entry := Strip(line);
    if |line| > maxSize then REFUSED
    else if entry == "]" then Intake([], !comma && after == "")
    else if entry == "" || !comma then REFUSED
    else
      var second, rest := TakeLine(after), DropLine(after);
      if |second| > maxSize then REFUSED
      else
        var content := StripComma(Strip(second));
        assert line != "" by { EmptyStrip(); }
        var more := ReadEntries(rest, content.1, maxSize);
        Before([(StripComma(entry).0, OrNone(content.0))], more)
  }

  lemma EmptyStrip()
    ensures Strip("") == ""
  {}

  /** The request's arguments come first; `None` if the stream does not even start well. */
  function ReadBody(input: string, maxSize: nat): (Option<string>, Intake) {
    var first, second := TakeLine(input), TakeLine(DropLine(input));
    if |first| > maxSize || Strip(first) != "[" || |second| > maxSize then (None, REFUSED)
    else
      var header := StripComma(Strip(second));
      (Some(header.0), ReadEntries(DropLine(DropLine(input)), header.1, maxSize))
  }

  /** The loop of the server. Documents are handed on as they come, before the end is seen. */
  method Receive(reader: FencedReader) returns (args: Option<string>, intake: Intake)
    requires reader.Valid()
    modifies reader
    ensures (args, intake) == ReadBody(old(reader.Unread()), reader.maxEntrySize)
  {
    hide Strip, TakeLine, DropLine, StripComma, Before;
    EmptyStrip();
    var start := reader.GetLine();
    if start.Err? || Strip(start.value) != "[" {
      return None, REFUSED;
    }
    var second := reader.GetLine();
    if second.Err? {
      return None, REFUSED;
    }
    var header := StripComma(Strip(second.value));
    args := Some(header.0);
    var comma := header.1;
    var puts := [];
    ghost var body := ReadEntries(reader.Unread(), comma, reader.maxEntrySize);
    BeforeTwice([], [], body);
    while true
      invariant reader.Valid()
      invariant body == Before(puts, ReadEntries(reader.Unread(), comma, reader.maxEntrySize))
      decreases |reader.Unread()|
    {
      BeforeTwice(puts, [], REFUSED);
      var line := reader.GetLine();
      if line.Err? {
        return args, Intake(puts, false);
      }
      var entry := Strip(line.value);
      if entry == "]" {
        if comma {
          return args, LastIntake(puts, false);
        }
        var extra := reader.GetLine();
        return args, LastIntake(puts, extra == Ok(""));
      }
      if entry == "" || !comma {
        return args, Intake(puts, false);
      }
      var stripped := StripComma(entry);
      var next := reader.GetLine();
      if next.Err? {
        return args, Intake(puts, false);
      }
      var content := StripComma(Strip(next.value));
      comma := content.1;
      BeforeTwice(puts, [(stripped.0, OrNone(content.0))], ReadEntries(reader.Unread(), comma, reader.maxEntrySize));
      puts := puts + [(stripped.0, OrNone(content.0))];
    }
  }

  function LastIntake(puts: seq<(string, Option<string>)>, ok: bool): (r: Intake)
    ensures r == Before(puts, Intake([], ok))
  {
    assert puts + [] == puts;
    Intake(puts, ok)
  }

  // ---------- the round trip ----------

  /** A text that can be framed: no newline, no blank at its ends and no comma at its end. */
  ghost predicate Framable(s: string) {
    '\n' !in s && Stripped(s) && (s != "" ==> s[|s| - 1] != ',')
  }

  ghost predicate AllFramable(us: seq<Upload>) {
    forall u <- us :: Framable(u.info) && (u.content.Some? ==> Framable(u.content.value))
  }

  lemma FramableContent(u: Upload)
    ensures (u.content.Some? ==> Framable(u.content.value)) <==> Framable(ContentText(u))
  {}

  /** No line is longer than the server takes, its line break included, and its comma if it has one. */
  ghost predicate LinesFit(us: seq<Upload>, maxSize: nat) {
    forall i :: 0 <= i < |us| ==>
      && |us[i].info| + 3 <= maxSize
      && (match us[i].content case Some(content) => |content| case None => 0) + (if i + 1 < |us| then 3 else 2) <= maxSize
  }

  lemma LinesFitStep(us: seq<Upload>, maxSize: nat)
    requires us != []
    ensures LinesFit(us, maxSize) <==>
      && |us[0].info| + 3 <= maxSize
      && |ContentText(us[0])| + |LineEnd(us[1..] != [])| <= maxSize
      && LinesFit(us[1..], maxSize)
  {
    if LinesFit(us, maxSize) {
      assert forall i :: 0 <= i < |us[1..]| ==> us[1..][i] == us[i + 1];
    } else if |us[0].info| + 3 <= maxSize && |ContentText(us[0])| + |LineEnd(us[1..] != [])| <= maxSize
              && LinesFit(us[1..], maxSize) {
      forall i | 0 < i < |us|
        ensures |us[i].info| + 3 <= maxSize
        ensures (match us[i].content case Some(content) => |content| case None => 0) + (if i + 1 < |us| then 3 else 2)
          <= maxSize
      {
        assert us[1..][i - 1] == us[i];
      }
    }
  }

  /** What the server makes of the documents: an empty content is no content. */
  function Pairs(us: seq<Upload>): seq<(string, Option<string>)> {
    if us == [] then [] else [(us[0].info, OrNone(ContentText(us[0])))] + Pairs(us[1..])
  }

  function LineEnd(more: bool): string {
    if more then ",\r\n" else "\r\n"
  }

  /** The body after the header line, line by line. */
  function Tail(us: seq<Upload>): string {
    if us == [] then "]"
    else us[0].info + LineEnd(true) + (ContentText(us[0]) + LineEnd(us[1..] != []) + Tail(us[1..]))
  }

  lemma {:induction false} ListedIsTail(us: seq<Upload>)
    ensures Listed(EntryTexts(us)) + "\r\n]" == LineEnd(us != []) + Tail(us)
  {
    if us == [] {
      assert "" + "\r\n]" == "\r\n" + "]";
    } else {
      ListedIsTail(us[1..]);
      TailStep(us[0], Listed(EntryTexts(us[1..])), LineEnd(us[1..] != []), Tail(us[1..]));
      hide Listed, Tail;
      assert EntryTexts(us)[1..] == EntryTexts(us[1..]);
    }
  }

  lemma TailStep(u: Upload, listed: string, end: string, tail: string)
    requires listed + "\r\n]" == end + tail
    ensures ",\r\n" + EntryText(u) + listed + "\r\n]" ==
      LineEnd(true) + (u.info + LineEnd(true) + (ContentText(u) + end + tail))
  {
    var front := ",\r\n" + u.info + ",\r\n" + ContentText(u);
    assert ",\r\n" + EntryText(u) + listed + "\r\n]" == front + (listed + "\r\n]");
    assert LineEnd(true) + (u.info + LineEnd(true) + (ContentText(u) + end + tail)) == front + (end + tail);
  }

  lemma BodyIsLines(headers: string, us: seq<Upload>)
    ensures BodyText(headers, us) == "[" + "\r\n" + (headers + LineEnd(us != []) + Tail(us))
  {
    hide Listed, Tail, EntryTexts;
    ListedIsTail(us);
    assert BodyText(headers, us) == "[\r\n" + headers + (Listed(EntryTexts(us)) + "\r\n]");
  }

  lemma FramedLineIsStripped(a: string, more: bool)
    requires Framable(a)
    ensures var line := Strip(a + LineEnd(more));
      line == (if more then a + "," else a) && StripComma(line) == (a, more)
  {
    hide Strip;
    if more {
      assert a + "," == [(a + ",")[0]] + (a + ",")[1..];
      StripDrops("", a + ",", "\r\n");
      assert "" + (a + ",") + "\r\n" == a + LineEnd(true);
      assert (a + ",")[..|a|] == a;
    } else {
      StripDrops("", a, "\r\n");
      assert "" + a + "\r\n" == a + LineEnd(false);
    }
  }

  lemma FramedLine(a: string, more: bool, rest: string)
    requires Framable(a)
    ensures TakeLine(a + LineEnd(more) + rest) == a + LineEnd(more)
    ensures DropLine(a + LineEnd(more) + rest) == rest
    ensures var line := Strip(a + LineEnd(more));
      line == (if more then a + "," else a) && StripComma(line) == (a, more)
  {
    hide TakeLine, DropLine, Strip;
    var start := a + if more then ",\r" else "\r";
    assert a + LineEnd(more) == start + "\n";
    LineEnds(start, rest);
    FramedLineIsStripped(a, more);
  }

  lemma ClosingLine()
    ensures TakeLine("]") == "]" && DropLine("]") == "" && Strip("]") == "]"
  {
    LineIsAll("]");
    StripStripped("]");
  }

  /** The rest of the body is accepted exactly if its lines fit, and then all its documents are handed on. */
  lemma {:induction false} TailIsReadExactlyWhen(us: seq<Upload>, maxSize: nat)
    requires AllFramable(us) && maxSize > 0
    ensures var intake := ReadEntries(Tail(us), us != [], maxSize);
      if LinesFit(us, maxSize) then intake == Intake(Pairs(us), true) else !intake.ok
  {
    hide Strip, TakeLine, DropLine, StripComma, Framable, LineEnd, LinesFit;
    if us == [] {
      ClosingLine();
      NoLinesFit(maxSize);
    } else {
      var u, more := us[0], us[1..] != [];
      var second := ContentText(u) + LineEnd(more) + Tail(us[1..]);
      TailIsReadExactlyWhen(us[1..], maxSize);
      FramableContent(u);
      FramedLine(u.info, true, second);
      FramedLine(ContentText(u), more, Tail(us[1..]));
      EntryIsNotTheEnd(u.info);
      LineEndIsShort(more);
      LinesFitStep(us, maxSize);
    }
  }

  lemma NoLinesFit(maxSize: nat)
    ensures LinesFit([], maxSize)
  {}

  lemma EntryIsNotTheEnd(info: string)
    ensures info + "," != "]" && info + "," != ""
  {
    assert (info + ",")[|info|] == ',';
  }

  lemma LineEndIsShort(more: bool)
    ensures |LineEnd(more)| <= 3
    ensures |LineEnd(true)| == 3
  {}

  lemma {:induction false} PairsExactly(us: seq<Upload>)
    ensures |Pairs(us)| == |us|
    ensures forall i :: 0 <= i < |us| ==>
      Pairs(us)[i] == (us[i].info, if us[i].content == Some("") then None else us[i].content)
  {
    if us != [] {
      PairsExactly(us[1..]);
    }
  }

  /**
   * An upload is accepted exactly if every line fits. Then the server has recovered its documents, in
   * order, each with the content given; only an empty content has become none.
   */
  lemma UploadIsReadBackExactlyWhen(headers: string, us: seq<Upload>, maxSize: nat)
    requires Framable(headers) && AllFramable(us)
    ensures var (args, intake) := ReadBody(BodyText(headers, us), maxSize);
      && (intake.ok <==> 3 <= maxSize && |headers| + (if us == [] then 2 else 3) <= maxSize && LinesFit(us, maxSize))
      && (intake.ok ==>
           && args == Some(headers)
           && |intake.puts| == |us|
           && forall i :: 0 <= i < |us| ==>
                intake.puts[i] == (us[i].info, if us[i].content == Some("") then None else us[i].content))
  {
    hide Strip, TakeLine, DropLine, StripComma, Tail, BodyText, Listed, ReadEntries, LinesFit;
    BodyIsLines(headers, us);
    OpeningLine(headers + LineEnd(us != []) + Tail(us));
    FramedLine(headers, us != [], Tail(us));
    PairsExactly(us);
    if 3 <= maxSize {
      TailIsReadExactlyWhen(us, maxSize);
    }
  }

  // ---------- the body, character by character ----------

  lemma BodyOfNone(headers: string)
    ensures BodyText(headers, []) == "[\r\n" + headers + "\r\n]"
  {
    assert BodyText(headers, []) == "[\r\n" + headers + "" + "\r\n]";
    assert "[\r\n" + headers + "" == "[\r\n" + headers;
  }

  /** One more document goes before the end: its description on one line, its content on the next. */
  lemma BodyOfOneMore(headers: string, us: seq<Upload>, u: Upload)
    ensures var content := match u.content case Some(text) => text case None => "";
      exists before ::
        && BodyText(headers, us) == before + "\r\n]"
        && BodyText(headers, us + [u]) == before + ",\r\n" + u.info + ",\r\n" + content + "\r\n]"
  {
    var e, listed := EntryText(u), Listed(EntryTexts(us));
    EntryTextsOneMore(us, u);
    ListedAppend(EntryTexts(us), [e]);
    ListedOne(e);
    hide Listed, EntryTexts, EntryText;
    var before := "[\r\n" + headers + listed;
    assert BodyText(headers, us) == before + "\r\n]";
    assert BodyText(headers, us + [u]) == "[\r\n" + headers + (listed + (",\r\n" + e)) + "\r\n]";
    hide *;
    assert "[\r\n" + headers + (listed + (",\r\n" + e)) == before + (",\r\n" + e);
    OneEntry(before, u);
  }

  lemma EntryTextsOneMore(us: seq<Upload>, u: Upload)
    ensures EntryTexts(us + [u]) == EntryTexts(us) + [EntryText(u)]
  {}

  lemma ListedOne(e: string)
    ensures Listed([e]) == ",\r\n" + e
  {
    assert [e][1..] == [];
    assert ",\r\n" + e + "" == ",\r\n" + e;
  }

  lemma OneEntry(before: string, u: Upload)
    ensures var content := match u.content case Some(text) => text case None => "";
      before + (",\r\n" + EntryText(u)) + "\r\n]" == before + ",\r\n" + u.info + ",\r\n" + content + "\r\n]"
  {}

  lemma OpeningLine(rest: string)
    ensures TakeLine("[" + "\r\n" + rest) == "[\r\n" && DropLine("[" + "\r\n" + rest) == rest
    ensures Strip("[\r\n") == "["
  {
    LineEnds("[\r", rest);
    assert "[" + "\r\n" + rest == "[\r" + "\n" + rest;
    StripDrops("", "[", "\r\n");
    assert "" + "[" + "\r\n" == "[\r\n";
  }

  // ---------- commas, and what follows the end ----------

  /** A comma must come exactly where another document follows. */
  lemma CommasMatter(headers: string, us: seq<Upload>, comma: bool, maxSize: nat)
    requires Framable(headers) && AllFramable(us)
    requires ReadBody("[" + "\r\n" + (headers + (if comma then ",\r\n" else "\r\n") + Tail(us)), maxSize).1.ok
    ensures comma <==> us != []
  {
    hide Strip, TakeLine, DropLine, StripComma, Tail;
    assert (if comma then ",\r\n" else "\r\n") == LineEnd(comma);
    OpeningLine(headers + LineEnd(comma) + Tail(us));
    FramedLine(headers, comma, Tail(us));
    if us == [] {
      ClosingLine();
      NoTail();
    } else {
      FirstLineOf(us);
      EntryIsNotTheEnd(us[0].info);
    }
  }

  lemma NoTail()
    ensures Tail([]) == "]"
  {}

  lemma FirstLineOf(us: seq<Upload>)
    requires us != [] && AllFramable(us)
    ensures Strip(TakeLine(Tail(us))) == us[0].info + ","
  {
    hide Strip, TakeLine, DropLine, LineEnd;
    FramedLine(us[0].info, true, ContentText(us[0]) + LineEnd(us[1..] != []) + Tail(us[1..]));
  }

  /** The first line is the opening bracket, whatever comes then; and no line is too long. */
  lemma OpeningMatters(input: string, maxSize: nat)
    requires Strip(TakeLine(input)) != "[" || |TakeLine(input)| > maxSize || |TakeLine(DropLine(input))| > maxSize
    ensures ReadBody(input, maxSize) == (None, Intake([], false))
  {}

  /** Behind the closing line there may be nothing at all. */
  lemma {:induction false} NothingMayFollow(us: seq<Upload>, more: string, maxSize: nat)
    requires AllFramable(us) && more != ""
    ensures !ReadEntries(Tail(us) + ("\r\n" + more), us != [], maxSize).ok
  {
    hide Strip, TakeLine, DropLine, StripComma, Framable, LineEnd;
    var extra := "\r\n" + more;
    if us == [] {
      assert "]" + extra == "]\r" + "\n" + more;
      LineEnds("]\r", more);
      StripStripped("]");
      StripDrops("", "]", "\r\n");
      assert "" + "]" + "\r\n" == "]\r" + "\n";
    } else {
      var u, tail := us[0], Tail(us[1..]) + extra;
      var second := ContentText(u) + LineEnd(us[1..] != []) + tail;
      NothingMayFollow(us[1..], more, maxSize);
      FramableContent(u);
      FramedLine(u.info, true, second);
      FramedLine(ContentText(u), us[1..] != [], tail);
      EntryIsNotTheEnd(u.info);
      TailGoesOn(us, extra);
    }
  }

  lemma TailGoesOn(us: seq<Upload>, extra: string)
    requires us != []
    ensures Tail(us) + extra ==
      us[0].info + LineEnd(true) + (ContentText(us[0]) + LineEnd(us[1..] != []) + (Tail(us[1..]) + extra))
  {
    var content, tail := ContentText(us[0]) + LineEnd(us[1..] != []), Tail(us[1..]);
    assert us[0].info + LineEnd(true) + (content + tail) + extra == us[0].info + LineEnd(true) + (content + (tail + extra));
  }

  lemma BodyAndMoreIsRefused(headers: string, us: seq<Upload>, more: string, maxSize: nat)
    requires Framable(headers) && AllFramable(us) && more != ""
    ensures !ReadBody(BodyText(headers, us) + ("\r\n" + more), maxSize).1.ok
  {
    hide Strip, TakeLine, DropLine, StripComma, Tail, BodyText, ReadEntries, LineEnd;
    var extra := "\r\n" + more;
    BodyIsLines(headers, us);
    var front, tail := headers + LineEnd(us != []), Tail(us) + extra;
    assert "[" + "\r\n" + (front + Tail(us)) + extra == "[" + "\r\n" + (front + tail);
    OpeningLine(front + tail);
    FramedLine(headers, us != [], tail);
    NothingMayFollow(us, more, maxSize);
  }

  // ---------- documents are handed on as they come ----------

  /** Documents after which more is to come. */
  function Opened(us: seq<Upload>): string {
    if us == [] then ""
    else
      var content := match us[0].content case Some(content) => content case None => "";
      us[0].info + ",\r\n" + (content + ",\r\n" + Opened(us[1..]))
  }

  /** Whatever comes after them, documents that arrived whole are handed on, and reading goes on behind them. */
  lemma {:induction false} WholeDocumentsAreHandedOn(us: seq<Upload>, rest: string, maxSize: nat)
    requires AllFramable(us)
    requires forall u <- us :: |u.info| + 3 <= maxSize && (u.content.Some? ==> |u.content.value| + 3 <= maxSize)
    ensures var more := ReadEntries(rest, true, maxSize);
      ReadEntries(Opened(us) + rest, true, maxSize) == Intake(Pairs(us) + more.puts, more.ok)
  {
    hide Strip, TakeLine, DropLine, StripComma, Framable;
    var more := ReadEntries(rest, true, maxSize);
    if us == [] {
      assert "" + rest == rest && [] + more.puts == more.puts;
    } else {
      var u, others := us[0], us[1..];
      WholeDocumentsAreHandedOn(others, rest, maxSize);
      FramableContent(u);
      var behind := Opened(others) + rest;
      OpenedFirst(us, rest);
      FramedLine(u.info, true, ContentText(u) + LineEnd(true) + behind);
      FramedLine(ContentText(u), true, behind);
      EntryIsNotTheEnd(u.info);
      hide Opened;
      assert [(u.info, OrNone(ContentText(u)))] + (Pairs(others) + more.puts) == Pairs(us) + more.puts;
    }
  }

  lemma OpenedFirst(us: seq<Upload>, rest: string)
    requires us != []
    ensures Opened(us) + rest ==
      us[0].info + LineEnd(true) + (ContentText(us[0]) + LineEnd(true) + (Opened(us[1..]) + rest))
  {
    var content, tail := ContentText(us[0]) + LineEnd(true), Opened(us[1..]);
    assert us[0].info + LineEnd(true) + (content + tail) + rest == us[0].info + LineEnd(true) + (content + (tail + rest));
  }

  /** Cut within a content, an upload is refused, but by then the documents before and what came of this one are handed on. */
  lemma CutContentIsHandedOn(us: seq<Upload>, info: string, part: string, maxSize: nat)
    requires AllFramable(us) && Framable(info) && Framable(part) && part != ""
    requires forall u <- us :: |u.info| + 3 <= maxSize && (u.content.Some? ==> |u.content.value| + 3 <= maxSize)
    requires |info| + 3 <= maxSize && |part| <= maxSize
    ensures ReadEntries(Opened(us) + (info + ",\r\n" + part), true, maxSize) ==
      Intake(Pairs(us) + [(info, Some(part))], false)
  {
    hide Strip, TakeLine, DropLine, StripComma, Opened, Pairs, Framable;
    var rest := info + ",\r\n" + part;
    WholeDocumentsAreHandedOn(us, rest, maxSize);
    FramedLine(info, true, part);
    EntryIsNotTheEnd(info);
    UnendedLine(part);
    assert rest == info + LineEnd(true) + part;
    assert ReadEntries(rest, true, maxSize) == Intake([(info, Some(part))], false) by {
      ReadNothing(maxSize);
      assert [(info, Some(part))] + [] == [(info, Some(part))];
    }
  }

  lemma UnendedLine(part: string)
    requires Framable(part)
    ensures TakeLine(part) == part && DropLine(part) == "" && StripComma(Strip(part)) == (part, false)
  {
    LineIsAll(part);
    StripStripped(part);
    hide Strip, TakeLine;
  }

  lemma ReadNothing(maxSize: nat)
    ensures ReadEntries("", false, maxSize) == REFUSED
  {
    EmptyStrip();
  }

  // ---------- cut short ----------

  lemma NothingToRead(comma: bool, maxSize: nat)
    ensures !ReadEntries("", comma, maxSize).ok
  {
    EmptyStrip();
  }

  /** After a comma an entry and its content must come, and then a line with the bracket. */
  lemma OneLineIsNotEnough(p: string, maxSize: nat)
    requires DropLine(p) == ""
    ensures !ReadEntries(p, true, maxSize).ok
  {
    hide Strip, TakeLine, DropLine, StripComma;
    EmptyStrip();
    LineIsAll("");
    NothingToRead(StripComma(Strip("")).1, maxSize);
  }

  /** A cut text either ends within the first line or is cut in what follows it. */
  lemma CutLine(line: string, rest: string, p: string)
    requires '\n' !in line && p < line + "\n" + rest
    ensures DropLine(p) == "" || (TakeLine(p) == line + "\n" && DropLine(p) < rest)
  {
    hide TakeLine, DropLine;
    var full := line + "\n" + rest;
    if |p| <= |line| {
      assert forall c <- p :: c in line;
      LineIsAll(p);
    } else {
      var after := p[|line| + 1..];
      assert p == line + "\n" + after;
      assert after == full[|line| + 1..|p|];
      LineEnds(line, after);
    }
  }

  lemma CutFramedLine(a: string, more: bool, rest: string, p: string)
    requires Framable(a) && p < a + LineEnd(more) + rest
    ensures DropLine(p) == "" || (TakeLine(p) == a + LineEnd(more) && DropLine(p) < rest)
  {
    hide TakeLine, DropLine;
    var line := a + if more then ",\r" else "\r";
    assert a + LineEnd(more) == line + "\n";
    CutLine(line, rest, p);
  }

  lemma {:induction false} CutTailIsRefused(us: seq<Upload>, p: string, maxSize: nat)
    requires AllFramable(us) && p < Tail(us)
    ensures !ReadEntries(p, us != [], maxSize).ok
    decreases us, 1
  {
    hide Strip, TakeLine, DropLine, StripComma, Framable, LineEnd;
    NothingToRead(us != [], maxSize);
    if us == [] {
      assert p == "";
    } else {
      var u, more, tail := us[0], us[1..] != [], Tail(us[1..]);
      FramableContent(u);
      CutFramedLine(u.info, true, ContentText(u) + LineEnd(more) + tail, p);
      if DropLine(p) == "" {
        OneLineIsNotEnough(p, maxSize);
      } else {
        CutEntryIsRefused(us, p, maxSize);
      }
    }
  }

  lemma {:induction false} CutEntryIsRefused(us: seq<Upload>, p: string, maxSize: nat)
    requires us != [] && AllFramable(us)
    requires TakeLine(p) == us[0].info + LineEnd(true)
    requires DropLine(p) < ContentText(us[0]) + LineEnd(us[1..] != []) + Tail(us[1..])
    ensures !ReadEntries(p, true, maxSize).ok
    decreases us, 0
  {
    hide Strip, TakeLine, DropLine, StripComma, Framable, LineEnd, Tail;
    var u, more, tail, after := us[0], us[1..] != [], Tail(us[1..]), DropLine(p);
    FramableContent(u);
    CutFramedLine(ContentText(u), more, tail, after);
    NothingToRead(StripComma(Strip(TakeLine(after))).1, maxSize);
    if DropLine(after) != "" {
      FramedLineIsStripped(ContentText(u), more);
      CutTailIsRefused(us[1..], DropLine(after), maxSize);
    }
  }

  /** An upload that breaks off anywhere before its end is never accepted. */
  lemma CutUploadIsRefused(headers: string, us: seq<Upload>, p: string, maxSize: nat)
    requires Framable(headers) && AllFramable(us) && p < BodyText(headers, us)
    ensures !ReadBody(p, maxSize).1.ok
  {
    hide Strip, TakeLine, DropLine, StripComma, LineEnd, Tail, BodyText, Listed, ReadEntries, Framable;
    BodyIsLines(headers, us);
    var rest := headers + LineEnd(us != []) + Tail(us);
    assert "[" + "\r\n" + rest == "[\r" + "\n" + rest;
    CutLine("[\r", rest, p);
    LineIsAll("");
    EmptyStrip();
    var second := DropLine(p);
    NothingToRead(StripComma(Strip(TakeLine(second))).1, maxSize);
    if second != "" {
      CutFramedLine(headers, us != [], Tail(us), second);
      if DropLine(second) != "" {
        FramedLineIsStripped(headers, us != []);
        CutTailIsRefused(us, DropLine(second), maxSize);
      }
    }
  }
}
