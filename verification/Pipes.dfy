/** Pipes that a downloaded blob flows through: its preamble, its body and the tag at its end. */
module Pipes {
  import opened Wrappers

  newtype byte = b: int | 0 <= b < 256

  const SPACE: byte := 32

  // ---------- what a blob consists of ----------

  /** Where the first space is; the length if there is none. */
  function SpaceIn(s: seq<byte>): (i: nat)
    ensures i <= |s|
    ensures forall k :: 0 <= k < i ==> s[k] != SPACE
    ensures i < |s| ==> s[i] == SPACE
    ensures i < |s| <==> SPACE in s
  {
    if s == [] then 0 else if s[0] == SPACE then 0 else SpaceIn(s[1..]) + 1
  }

  function PreambleOf(s: seq<byte>): seq<byte> {
    s[..SpaceIn(s)]
  }

  function AfterSpace(s: seq<byte>): seq<byte> {
    if SpaceIn(s) < |s| then s[SpaceIn(s) + 1..] else []
  }

  function WithoutTail(s: seq<byte>, size: nat): seq<byte> {
    if |s| <= size then [] else s[..|s| - size]
  }

  lemma SpaceIsFound(s: seq<byte>, i: nat)
    requires i < |s| && s[i] == SPACE && forall k :: 0 <= k < i ==> s[k] != SPACE
    ensures SpaceIn(s) == i
  {}

  /** The parts of a complete blob. */
  lemma BlobParts(preamble: seq<byte>, body: seq<byte>, tag: seq<byte>)
    requires 32 !in preamble
    ensures var blob := preamble + [32] + body + tag;
      && 32 in blob
      && PreambleOf(blob) == preamble
      && WithoutTail(AfterSpace(blob), |tag|) == body
  {
    var blob := preamble + [SPACE] + body + tag;
    assert forall k :: 0 <= k < |preamble| ==> blob[k] == preamble[k] && preamble[k] in preamble;
    SpaceIsFound(blob, |preamble|);
    hide SpaceIn;
    assert blob[..|preamble|] == preamble;
    assert blob[|preamble| + 1..] == body + tag;
  }

  lemma ChunkAfterSpace(s: seq<byte>, data: seq<byte>)
    requires SPACE in s
    ensures PreambleOf(s + data) == PreambleOf(s) && AfterSpace(s + data) == AfterSpace(s) + data
  {
    var all, i := s + data, SpaceIn(s);
    assert forall k :: 0 <= k <= i ==> all[k] == s[k];
    SpaceIsFound(all, i);
    hide SpaceIn;
    assert all[..i] == s[..i] && all[i + 1..] == s[i + 1..] + data;
  }

  lemma ChunkBeforeSpace(s: seq<byte>, data: seq<byte>)
    requires SPACE !in s
    ensures PreambleOf(s + data) == s + PreambleOf(data) && AfterSpace(s + data) == AfterSpace(data)
  {
    var all, i := s + data, SpaceIn(data);
    assert forall k :: 0 <= k < |s| ==> all[k] == s[k] && s[k] in s;
    assert forall k :: 0 <= k < i ==> all[|s| + k] == data[k];
    assert SpaceIn(all) == |s| + i by {
      if SPACE in data {
        SpaceIsFound(all, |s| + i);
      }
    }
    hide SpaceIn;
    assert all[..|s| + i] == s + data[..i];
    assert i < |data| ==> all[|s| + i + 1..] == data[i + 1..];
  }

  /** One more chunk: before the first space it is all preamble, behind it all content. */
  lemma ChunkGoesOn(s: seq<byte>, data: seq<byte>)
    ensures SPACE in s ==> PreambleOf(s + data) == PreambleOf(s) && AfterSpace(s + data) == AfterSpace(s) + data
    ensures SPACE !in s ==> PreambleOf(s + data) == s + PreambleOf(data) && AfterSpace(s + data) == AfterSpace(data)
  {
    hide PreambleOf, AfterSpace;
    if SPACE in s {
      ChunkAfterSpace(s, data);
    } else {
      ChunkBeforeSpace(s, data);
    }
  }

  // ---------- buffers ----------

  /** A buffer in memory, written and read at its position. */
  class BytesIO {
    var data: seq<byte>
    var pos: nat

    constructor ()
      ensures Full() && data == []
    {
      data, pos := [], 0;
    }

    /** The position is at the end: a write appends. */
    ghost predicate Full()
      reads this
    {
      pos == |data|
    }

    method Write(bytes: seq<byte>)
      requires pos <= |data|
      modifies this
      ensures data == old(data[..pos]) + bytes
        + if old(pos) + |bytes| < old(|data|) then old(data)[old(pos) + |bytes|..] else []
      ensures pos == old(pos) + |bytes|
    {
      var end := pos + |bytes|;
      data := data[..pos] + bytes + (if end < |data| then data[end..] else []);
      pos := end;
    }

    method Seek(to: nat)
      modifies this`pos
      ensures pos == to
    {
      pos := to;
    }

    method Read(n: nat) returns (bytes: seq<byte>)
      requires pos + n <= |data|
      modifies this`pos
      ensures pos == old(pos) + n && bytes == data[old(pos)..pos]
    {
      bytes := data[pos..pos + n];
      pos := pos + n;
    }

    method Truncate()
      requires pos <= |data|
      modifies this`data
      ensures data == old(data)[..pos]
    {
      data := data[..pos];
    }
  }

  // ---------- the pipes ----------

  /** Passes everything on but the last bytes, which may be the tag. */
  class TruncatedTailPipe {
    const tailSize: nat
    const output: BytesIO
    const buffer: BytesIO
    ghost var input: seq<byte>

    constructor (output: BytesIO, tailSize: nat)
      requires output.Full() && output.data == []
      ensures this.output == output && this.tailSize == tailSize && fresh(buffer)
      ensures Valid() && input == []
    {
      this.output, this.tailSize := output, tailSize;
      buffer := new BytesIO();
      input := [];
    }

    /** Nothing is lost or held back: output and buffer together are the input. */
    ghost predicate Valid()
      reads this, output, buffer
    {
      && output != buffer && output.Full() && buffer.Full()
      && output.data + buffer.data == input
      && |buffer.data| == if |input| < tailSize then |input| else tailSize
    }

    lemma OutputIsInputWithoutTail()
      requires Valid()
      ensures output.data == WithoutTail(input, tailSize)
    {
      assert output.data == input[..|output.data|];
    }

    method Write(data: seq<byte>)
      requires Valid()
      modifies this, output, buffer
      ensures Valid() && input == old(input) + data
    {
      assert (output.data + buffer.data) + data == output.data + (buffer.data + data);
      input := input + data;
      buffer.Write(data);
      assert buffer.data == old(buffer.data) + data;
      if buffer.pos > tailSize {
        TruncateTail();
      }
    }

    method TruncateTail()
      requires output != buffer && output.Full() && buffer.Full()
      requires output.data + buffer.data == input && |buffer.data| > tailSize
      modifies output, buffer
      ensures Valid()
    {
      var overflow := buffer.pos - tailSize;
      ghost var before := buffer.data;
      buffer.Seek(0);
      var passed := buffer.Read(overflow);
      output.Write(passed);
      var remaining := buffer.Read(|buffer.data| - buffer.pos);
      assert before == passed + remaining;
      assert output.data == old(output.data) + passed;
      assert old(output.data) + (passed + remaining) == (old(output.data) + passed) + remaining;
      buffer.Seek(0);
      buffer.Write(remaining);
      buffer.Truncate();
      assert buffer.data == remaining;
    }
  }

  /**
   * Collects the preamble up to the first space; what follows goes to the decrypter, or to a plain
   * buffer when the preamble names a scheme that is not supported.
   */
  class DecrypterBuffer {
    const tagSize: nat
    const isSupported: seq<byte> -> bool
    const preamble: BytesIO
    var decrypter: TruncatedTailPipe?
    var rawData: BytesIO?
    ghost var input: seq<byte>
    ghost var repr: set<object>

    constructor (tagSize: nat, isSupported: seq<byte> -> bool)
      ensures this.tagSize == tagSize && this.isSupported == isSupported
      ensures Valid() && input == [] && fresh(repr)
    {
      this.tagSize, this.isSupported := tagSize, isSupported;
      preamble := new BytesIO();
      decrypter, rawData := null, null;
      input := [];
      new;
      repr := {this, preamble};
    }

    /** Everything depends on the bytes written alone, not on how they were cut into chunks. */
    ghost predicate Valid()
      reads this, repr
    {
      && this in repr && preamble in repr && preamble.Full()
      && preamble.data == PreambleOf(input)
      && (decrypter != null <==> SPACE in input && isSupported(PreambleOf(input)))
      && (rawData != null <==> SPACE in input && !isSupported(PreambleOf(input)))
      && (decrypter != null ==>
           && {decrypter, decrypter.output, decrypter.buffer} <= repr
           && preamble !in {decrypter.output, decrypter.buffer}
           && decrypter.tailSize == tagSize
           && decrypter.Valid() && decrypter.input == AfterSpace(input))
      && (rawData != null ==> rawData in repr && rawData != preamble && rawData.Full() && rawData.data == AfterSpace(input))
    }

    method Write(data: seq<byte>)
      requires Valid()
      modifies repr
      ensures Valid() && input == old(input) + data && fresh(repr - old(repr))
    {
      ChunkGoesOn(input, data);
      if decrypter != null {
        decrypter.Write(data);
        input := input + data;
      } else if rawData != null {
        rawData.Write(data);
        input := input + data;
      } else {
        WritePreamble(data);
      }
    }

    method WritePreamble(data: seq<byte>)
      requires Valid() && SPACE !in input
      modifies repr
      ensures Valid() && input == old(input) + data && fresh(repr - old(repr))
    {
      ChunkGoesOn(input, data);
      NoSpaceIsAllPreamble(input);
      input := input + data;
      if SPACE !in data {
        NoSpaceIsAllPreamble(data);
        preamble.Write(data);
        return;
      }
      var chunk, remaining := PreambleOf(data), AfterSpace(data);
      preamble.Write(chunk);
      if isSupported(preamble.data) {
        var sink := new BytesIO();
        var pipe := new TruncatedTailPipe(sink, tagSize);
        pipe.Write(remaining);
        decrypter := pipe;
        repr := repr + {pipe, pipe.output, pipe.buffer};
      } else {
        var raw := new BytesIO();
        raw.Write(remaining);
        rawData := raw;
        repr := repr + {raw};
      }
    }

    /** The blob is incomplete when no space ever came; otherwise all but the tag, or all as it is. */
    method Close() returns (r: Result<seq<byte>>)
      requires Valid()
      ensures r == if SPACE !in input then Err(IncompleteBlob)
        else if isSupported(PreambleOf(input)) then Ok(WithoutTail(AfterSpace(input), tagSize))
        else Ok(AfterSpace(input))
    {
      if decrypter != null {
        decrypter.OutputIsInputWithoutTail();
        return Ok(decrypter.output.data);
      } else if rawData != null {
        return Ok(rawData.data);
      }
      return Err(IncompleteBlob);
    }
  }

  lemma NoSpaceIsAllPreamble(s: seq<byte>)
    requires SPACE !in s
    ensures PreambleOf(s) == s && AfterSpace(s) == []
  {}
}
