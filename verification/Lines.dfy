/** Lines of a stream, ended by a newline, and the reader that finds them in bounded chunks. */
module Lines {
  import opened Wrappers

  /** The first line with its newline; all there is when no newline is left. */
  function TakeLine(s: string): (line: string)
    ensures line <= s
    ensures s != "" ==> line != ""
  {
    if s == "" then "" else if s[0] == '\n' then "\n" else [s[0]] + TakeLine(s[1..])
  }

  function DropLine(s: string): (rest: string)
    ensures TakeLine(s) + rest == s
  {
    s[|TakeLine(s)|..]
  }

  lemma {:induction false} LineEnds(a: string, rest: string)
    requires '\n' !in a
    ensures TakeLine(a + "\n" + rest) == a + "\n" && DropLine(a + "\n" + rest) == rest
  {
    if a != "" {
      LineEnds(a[1..], rest);
      assert (a + "\n" + rest)[1..] == a[1..] + "\n" + rest;
      assert [a[0]] + (a[1..] + "\n") == a + "\n";
    }
  }

  lemma {:induction false} LineIsAll(a: string)
    requires '\n' !in a
    ensures TakeLine(a) == a && DropLine(a) == ""
  {
    if a != "" {
      LineIsAll(a[1..]);
    }
  }

  lemma NextCharacter(c: char, s: string)
    requires c != '\n'
    ensures TakeLine([c] + s) == [c] + TakeLine(s)
  {
    assert ([c] + s)[1..] == s;
  }

  lemma {:induction false} LineStarts(a: string, b: string)
    requires '\n' !in a
    ensures TakeLine(a + b) == a + TakeLine(b)
  {
    hide TakeLine;
    if a == "" {
      assert a + b == b && "" + TakeLine(b) == TakeLine(b);
    } else {
      assert a[0] in a && a == [a[0]] + a[1..];
      LineStarts(a[1..], b);
      assert a + b == [a[0]] + (a[1..] + b);
      NextCharacter(a[0], a[1..] + b);
      assert [a[0]] + (a[1..] + TakeLine(b)) == a + TakeLine(b);
    }
  }

  /** A start of the line that has no newline yet. */
  lemma LineGoesOn(a: string, b: string)
    requires '\n' !in a
    ensures TakeLine(a + b) == a + TakeLine(b) && DropLine(a + b) == DropLine(b)
  {
    LineStarts(a, b);
    hide TakeLine;
    assert (a + b)[|a| + |TakeLine(b)|..] == b[|TakeLine(b)|..];
  }

  function FindNewline(s: string): (i: int)
    ensures -1 <= i < |s|
    ensures if i == -1 then '\n' !in s else s[i] == '\n' && '\n' !in s[..i]
  {
    if s == "" then -1
    else if s[0] == '\n' then 0
    else
      var i := FindNewline(s[1..]);
      assert s == [s[0]] + s[1..];
      assert i >= 0 ==> s[..i + 1] == [s[0]] + s[1..][..i];
      if i == -1 then -1 else i + 1
  }

  lemma LineIsFound(parts: string, chunk: string, nl: nat, after: string)
    requires '\n' !in parts && nl < |chunk| && chunk[nl] == '\n' && '\n' !in chunk[..nl]
    ensures var input := parts + (chunk + after);
      TakeLine(input) == parts + chunk[..nl + 1] && DropLine(input) == chunk[nl + 1..] + after
  {
    hide TakeLine, DropLine;
    var line, rest := chunk[..nl], chunk[nl + 1..] + after;
    assert chunk[..nl + 1] == line + "\n";
    assert chunk + after == line + "\n" + rest;
    LineEnds(line, rest);
    LineGoesOn(parts, chunk + after);
  }

  lemma LineIsLonger(parts: string, chunk: string, after: string)
    requires '\n' !in parts && '\n' !in chunk
    ensures var input := parts + (chunk + after);
      && input == (parts + chunk) + after
      && |parts + chunk| <= |TakeLine(input)|
      && (chunk + after == "" ==> TakeLine(input) == parts && DropLine(input) == "")
  {
    hide TakeLine, DropLine;
    assert parts + (chunk + after) == (parts + chunk) + after;
    LineGoesOn(parts + chunk, after);
    if chunk + after == "" {
      assert parts + "" == parts;
      LineIsAll(parts);
    }
  }

  /** Reads a file in chunks but hands out whole lines, keeping what it read too much. */
  class FencedReader {
    const maxChunk: nat
    const maxEntrySize: nat
    var rfile: string
    var kept: Option<string>

    constructor (rfile: string, maxChunk: nat, maxEntrySize: nat)
      requires maxChunk > 0
      ensures Unread() == rfile && Valid() && this.maxEntrySize == maxEntrySize
    {
      this.rfile, this.maxChunk, this.maxEntrySize := rfile, maxChunk, maxEntrySize;
      kept := None;
    }

    ghost predicate Valid()
      reads this
    {
      maxChunk > 0 && (kept.Some? ==> kept.value != "")
    }

    /** What the lines are taken from. */
    function Unread(): string
      reads this
    {
      if kept.Some? then kept.value + rfile else rfile
    }

    /** What is kept comes first, whatever its size; a read may bring fewer characters than asked for. */
    method ReadChunk(atMost: nat) returns (chunk: string)
      requires Valid() && atMost > 0
      modifies this
      ensures Valid() && kept == None
      ensures chunk + Unread() == old(Unread())
      ensures chunk == "" ==> Unread() == ""
    {
      if kept.Some? {
        chunk := kept.value;
        kept := None;
        return chunk;
      }
      if rfile == "" {
        return "";
      }
      var n: nat :| 0 < n <= atMost && n <= |rfile|;
      chunk := rfile[..n];
      rfile := rfile[n..];
    }

    method Keep(rest: string)
      requires Valid() && kept == None
      modifies this`kept
      ensures Valid() && Unread() == rest + old(Unread())
    {
      if rest != "" {
        kept := Some(rest);
      } else {
        assert rest + rfile == rfile;
      }
    }

    method GetLine() returns (r: Result<string>)
      requires Valid()
      modifies this
      ensures Valid()
      ensures var line := TakeLine(old(Unread()));
        if |line| > maxEntrySize then r == Err(BadRequest)
        else r == Ok(line) && Unread() == DropLine(old(Unread()))
    {
      hide TakeLine, DropLine, FindNewline;
      var parts, size := "", 0;
      assert "" + Unread() == Unread();
      while true
        invariant Valid() && '\n' !in parts && size == |parts| <= maxEntrySize
        invariant parts + Unread() == old(Unread())
        decreases |Unread()|
      {
        var chunk := ReadChunk(maxChunk);
        ghost var after := Unread();
        var nl := FindNewline(chunk);
        if nl != -1 {
          LineIsFound(parts, chunk, nl, after);
          size := size + nl + 1;
          if size > maxEntrySize {
            return Err(BadRequest);
          }
          parts := parts + chunk[..nl + 1];
          Keep(chunk[nl + 1..]);
          return Ok(parts);
        }
        LineIsLonger(parts, chunk, after);
        if chunk == "" {
          return Ok(parts);
        }
        size := size + |chunk|;
        if size > maxEntrySize {
          return Err(BadRequest);
        }
        parts := parts + chunk;
      }
    }
  }
}
