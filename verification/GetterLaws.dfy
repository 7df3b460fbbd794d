/** What an index expression is worth on a document, told from the document alone. */
module GetterLaws {
  import opened Documents
  import opened Getters
  import opened Texts

  // ---------- fields ----------

  /** One name of a dotted path: into an object, and on into the items of a list. */
  ghost predicate LeadsTo(v: Json, name: string, w: Json) {
    && v.Object?
    && name in v.fields
    && match v.fields[name]
       case Null => false
       case Array(_) => w in v.fields[name].items
       case value => w == value
  }

  ghost predicate IsTrail(trail: seq<Json>, path: seq<string>, doc: Json, v: Json) {
    && |trail| == |path| + 1
    && trail[0] == doc
    && trail[|path|] == v
    && forall k :: 0 <= k < |path| ==> LeadsTo(trail[k], path[k], trail[k + 1])
  }

  /** A field has the values at the ends of all ways along its path, apart from objects and lists. */
  lemma {:induction false} FieldHasExactly(path: seq<string>, doc: Json, v: Json)
    ensures v in Get(Field(path), doc) <==>
      path != [] && !v.Array? && !v.Object? && exists trail :: IsTrail(trail, path, doc, v)
    decreases path
  {
    if |path| == 1 {
      LastName(path, doc, v);
    } else if path != [] {
      forall w | LeadsTo(doc, path[0], w)
        ensures v in ExtractField(w, path[1..]) <==>
          !v.Array? && !v.Object? && exists trail :: IsTrail(trail, path[1..], w, v)
      {
        FieldHasExactly(path[1..], w, v);
      }
      FirstName(path, doc, v);
      TrailsSplit(path, doc, v);
    }
  }

  lemma LastName(path: seq<string>, doc: Json, v: Json)
    requires |path| == 1
    ensures v in ExtractField(doc, path) <==>
      !v.Array? && !v.Object? && exists trail :: IsTrail(trail, path, doc, v)
  {
    if LeadsTo(doc, path[0], v) {
      assert IsTrail([doc, v], path, doc, v);
    }
    if doc.Object? && path[0] in doc.fields && doc.fields[path[0]].Array? {
      SimpleOnesExactly(doc.fields[path[0]].items, v);
    }
  }

  lemma {:induction false} SimpleOnesExactly(vs: seq<Json>, v: Json)
    ensures v in SimpleOnes(vs) <==> v in vs && !v.Array? && !v.Object?
  {
    if vs != [] {
      SimpleOnesExactly(vs[1..], v);
    }
  }

  lemma FirstName(path: seq<string>, doc: Json, v: Json)
    requires |path| > 1
    ensures v in ExtractField(doc, path) <==> exists w :: LeadsTo(doc, path[0], w) && v in ExtractField(w, path[1..])
  {
    if doc.Object? && path[0] in doc.fields {
      var val := doc.fields[path[0]];
      if val.Array? {
        EachExactly(val.items, path[1..], v);
      } else if val.Object? {
        assert LeadsTo(doc, path[0], val);
      }
    }
  }

  lemma {:induction false} EachExactly(items: seq<Json>, path: seq<string>, v: Json)
    requires path != []
    ensures v in ExtractEach(items, path) <==> exists w <- items :: v in ExtractField(w, path)
  {
    if items != [] {
      var first, others := items[0], items[1..];
      EachExactly(others, path, v);
      hide ExtractField;
      assert v in ExtractEach(items, path) <==> v in ExtractField(first, path) || v in ExtractEach(others, path);
      assert forall w :: w in items <==> w == first || w in others;
      assert first in items;
    }
  }

  lemma TrailsSplit(path: seq<string>, doc: Json, v: Json)
    requires path != []
    ensures (exists trail :: IsTrail(trail, path, doc, v)) <==>
      exists w :: LeadsTo(doc, path[0], w) && exists trail :: IsTrail(trail, path[1..], w, v)
  {
    if trail :| IsTrail(trail, path, doc, v) {
      assert IsTrail(trail[1..], path[1..], trail[1], v);
    }
    if w, trail :| LeadsTo(doc, path[0], w) && IsTrail(trail, path[1..], w, v) {
      var longer := [doc] + trail;
      forall k | 0 <= k < |path| ensures LeadsTo(longer[k], path[k], longer[k + 1]) {
        if k > 0 {
          assert LeadsTo(trail[k - 1], path[1..][k - 1], trail[k]);
        }
      }
      assert IsTrail(longer, path, doc, v);
    }
  }

  // ---------- transformations ----------

  /** Only texts are put in lower case, letter by letter. */
  lemma LowerHasExactly(inner: Getter, doc: Json, v: Json)
    ensures v in Get(Lower(inner), doc) <==> v.Text? && exists s: string ::
      && Text(s) in Get(inner, doc)
      && |v.s| == |s|
      && forall k :: 0 <= k < |s| ==> v.s[k] == if 'A' <= s[k] <= 'Z' then s[k] + ('a' - 'A') else s[k]
  {
    LowerAllExactly(Get(inner, doc), v);
  }

  lemma {:induction false} LowerAllExactly(vs: seq<Json>, v: Json)
    ensures v in LowerAll(vs) <==> v.Text? && exists s: string ::
      && Text(s) in vs
      && |v.s| == |s|
      && forall k :: 0 <= k < |s| ==> v.s[k] == if 'A' <= s[k] <= 'Z' then s[k] + ('a' - 'A') else s[k]
  {
    if vs != [] {
      LowerAllExactly(vs[1..], v);
      if vs[0].Text? && v.Text? {
        LowerTextExactly(vs[0].s, v.s);
      }
    }
  }

  lemma {:induction false} LowerTextExactly(s: string, t: string)
    ensures t == LowerText(s) <==>
      && |t| == |s|
      && forall k :: 0 <= k < |s| ==> t[k] == if 'A' <= s[k] <= 'Z' then s[k] + ('a' - 'A') else s[k]
  {
    if s != "" && t != "" {
      LowerTextExactly(s[1..], t[1..]);
      assert t == [t[0]] + t[1..];
      assert |t| == |s| ==> forall k :: 0 < k < |s| ==> t[k] == t[1..][k - 1] && s[k] == s[1..][k - 1];
    }
  }

  /** Only integers are padded. */
  lemma NumberHasExactly(inner: Getter, width: int, doc: Json, v: Json)
    ensures v in Get(Number(inner, width), doc) <==>
      v.Text? && exists n :: Integer(n) in Get(inner, doc) && v.s == Padded(n, width)
  {
    NumberAllExactly(Get(inner, doc), width, v);
  }

  lemma {:induction false} NumberAllExactly(vs: seq<Json>, width: int, v: Json)
    ensures v in NumberAll(vs, width) <==> v.Text? && exists n :: Integer(n) in vs && v.s == Padded(n, width)
  {
    hide Padded;
    if vs != [] {
      NumberAllExactly(vs[1..], width, v);
    }
  }

  lemma {:induction false} RepeatExactly(c: char, n: int)
    ensures |Repeat(c, n)| == if n < 0 then 0 else n
    ensures forall x <- Repeat(c, n) :: x == c
  {
    if n > 0 {
      RepeatExactly(c, n - 1);
    }
  }

  ghost predicate IsFill(fill: string, c: char, n: int) {
    (forall x <- fill :: x == c) && |fill| == if n < 0 then 0 else n
  }

  /** Zeros make up for the missing width behind the sign, blanks do so after the digits if it is negative. */
  lemma PaddedExactly(n: int, width: int)
    ensures var plain := IntToString(n);
      exists fill ::
        if width < 0 then IsFill(fill, ' ', -width - |plain|) && Padded(n, width) == plain + fill
        else
          && IsFill(fill, '0', width - |plain|)
          && Padded(n, width) == if n < 0 then "-" + fill + plain[1..] else fill + plain
  {
    var sign, digits := if n < 0 then "-" else "", Decimal(if n < 0 then -n else n);
    hide Decimal, Repeat;
    var c, missing := if width < 0 then ' ' else '0', (if width < 0 then -width else width) - |sign| - |digits|;
    var plain, fill, text := IntToString(n), Repeat(c, missing), Padded(n, width);
    PlainNumber(n, sign, digits);
    RepeatExactly(c, missing);
    assert text == if width < 0 then sign + digits + fill else sign + fill + digits;
    hide *;
    assert IsFill(fill, c, missing);
    assert n >= 0 ==> "" + fill + digits == fill + digits;
  }

  lemma PlainNumber(n: int, sign: string, digits: string)
    requires sign == (if n < 0 then "-" else "") && digits == Decimal(if n < 0 then -n else n)
    ensures IntToString(n) == sign + digits && |IntToString(n)| == |sign| + |digits|
    ensures IntToString(n)[|sign|..] == digits
  {
    hide Decimal;
  }

  /** Only booleans are printed. */
  lemma BoolHasExactly(inner: Getter, doc: Json, v: Json)
    ensures v in Get(Bool(inner), doc) <==>
      || (v == Text("1") && Boolean(true) in Get(inner, doc))
      || (v == Text("0") && Boolean(false) in Get(inner, doc))
  {
    BoolAllExactly(Get(inner, doc), v);
  }

  lemma {:induction false} BoolAllExactly(vs: seq<Json>, v: Json)
    ensures v in BoolAll(vs) <==>
      (v == Text("1") && Boolean(true) in vs) || (v == Text("0") && Boolean(false) in vs)
  {
    if vs != [] {
      BoolAllExactly(vs[1..], v);
    }
  }

  ghost predicate IsGap(c: char) {
    c in [' ', '\t', '\n', '\r', '\U{0b}', '\U{0c}']
  }

  /** A word stands between blanks, or at an end of the text. */
  ghost predicate IsWordAt(s: string, i: nat, word: string) {
    && word != ""
    && i + |word| <= |s|
    && s[i..i + |word|] == word
    && (forall c <- word :: !IsGap(c))
    && (i > 0 ==> IsGap(s[i - 1]))
    && (i + |word| < |s| ==> IsGap(s[i + |word|]))
  }

  /** Only texts have words, and every word of theirs is found. */
  lemma SplitWordsHasExactly(inner: Getter, doc: Json, v: Json)
    ensures v in Get(SplitWords(inner), doc) <==>
      v.Text? && exists s, i :: Text(s) in Get(inner, doc) && IsWordAt(s, i, v.s)
  {
    hide AllWords, TextsOf, IsWordAt;
    var vs := Get(inner, doc);
    TextsOfExactly(Sorted(AllWords(vs)), v);
    if v.Text? {
      AllWordsExactly(vs, v.s);
    }
  }

  lemma {:induction false} TextsOfExactly(words: seq<string>, v: Json)
    ensures v in TextsOf(words) <==> v.Text? && v.s in words
  {
    if words != [] {
      TextsOfExactly(words[1..], v);
    }
  }

  lemma {:induction false} AllWordsExactly(vs: seq<Json>, word: string)
    ensures word in AllWords(vs) <==> exists s, i :: Text(s) in vs && IsWordAt(s, i, word)
  {
    if vs != [] {
      AllWordsExactly(vs[1..], word);
      if vs[0].Text? {
        WordsExactly("", vs[0].s, "", word);
        assert "" + "" + vs[0].s == vs[0].s;
        assert vs == [vs[0]] + vs[1..];
      }
    }
  }

  /** The scan, which has read a part and an unfinished word, goes on to find the words not yet ended. */
  lemma {:induction false} WordsExactly(before: string, s: string, open: string, word: string)
    requires before != "" ==> IsGap(before[|before| - 1])
    requires forall c <- open :: !IsGap(c)
    ensures word in Words(s, open) <==> exists i :: i >= |before| && IsWordAt(before + open + s, i, word)
    decreases |s|
  {
    var all := before + open + s;
    if s == "" {
      WordAtTheEnd(before, open, word);
      assert before + open + "" == before + open;
    } else if IsBlank(s[0]) {
      WordsExactly(before + open + [s[0]], s[1..], "", word);
      assert before + open + [s[0]] + "" + s[1..] == all;
      WordBeforeAGap(before, open, s, word);
    } else {
      WordsExactly(before, s[1..], open + [s[0]], word);
      assert before + (open + [s[0]]) + s[1..] == all;
    }
  }

  lemma WordAtTheEnd(before: string, open: string, word: string)
    requires before != "" ==> IsGap(before[|before| - 1])
    requires forall c <- open :: !IsGap(c)
    ensures (open != "" && word == open) <==> exists i :: i >= |before| && IsWordAt(before + open, i, word)
  {
    var all := before + open;
    assert forall k :: |before| <= k < |all| ==> all[k] in open;
    if open != "" && word == open {
      assert IsWordAt(all, |before|, word);
    }
    if i :| i >= |before| && IsWordAt(all, i, word) {
      assert i == |before| && i + |word| == |all|;
      assert all[i..] == open;
    }
  }

  lemma WordBeforeAGap(before: string, open: string, s: string, word: string)
    requires before != "" ==> IsGap(before[|before| - 1])
    requires forall c <- open :: !IsGap(c)
    requires s != "" && IsGap(s[0])
    ensures (exists i :: i >= |before| && IsWordAt(before + open + s, i, word)) <==>
      (open != "" && word == open) || exists i :: i >= |before + open| + 1 && IsWordAt(before + open + s, i, word)
  {
    var all, gap := before + open + s, |before + open|;
    OpenWordIsAWord(before, open, s);
    hide IsGap;
    if i :| |before| <= i <= gap && IsWordAt(all, i, word) {
      WordIsTheOpenOne(before, open, s, i, word);
    }
  }

  lemma OpenWordIsAWord(before: string, open: string, s: string)
    requires before != "" ==> IsGap(before[|before| - 1])
    requires forall c <- open :: !IsGap(c)
    requires s != "" && IsGap(s[0])
    ensures open != "" ==> IsWordAt(before + open + s, |before|, open)
  {
    hide IsGap;
    var all, gap := before + open + s, |before + open|;
    assert all[gap] == s[0] && all[|before|..gap] == open;
  }

  lemma WordIsTheOpenOne(before: string, open: string, s: string, i: nat, word: string)
    requires forall c <- open :: !IsGap(c)
    requires s != "" && IsGap(s[0])
    requires |before| <= i <= |before + open| && IsWordAt(before + open + s, i, word)
    ensures open != "" && word == open
  {
    hide IsGap;
    var all, gap := before + open + s, |before + open|;
    assert all[gap] == s[0] && all[|before|..gap] == open;
    assert forall k :: |before| <= k < gap ==> all[k] == open[k - |before|] && open[k - |before|] in open;
    assert forall k :: i <= k < i + |word| ==> all[k] == word[k - i] && word[k - i] in word;
    assert i == |before| && i + |word| == gap;
  }

  /** Exactly one value: whether there are none. */
  lemma IsNullHasExactly(inner: Getter, doc: Json, v: Json)
    ensures v in Get(IsNull(inner), doc) <==> v == Boolean(|Get(inner, doc)| == 0)
  {}

  lemma CombineHasExactly(inners: seq<Getter>, doc: Json, v: Json)
    ensures v in Get(Combine(inners), doc) <==> exists g <- inners :: v in Get(g, doc)
  {
    EachHasExactly(inners, doc, v);
  }

  lemma {:induction false} EachHasExactly(inners: seq<Getter>, doc: Json, v: Json)
    ensures v in GetEach(inners, doc) <==> exists g <- inners :: v in Get(g, doc)
  {
    if inners != [] {
      var first, others := inners[0], inners[1..];
      EachHasExactly(others, doc, v);
      hide Get;
      assert v in GetEach(inners, doc) <==> v in Get(first, doc) || v in GetEach(others, doc);
      assert forall g :: g in inners <==> g == first || g in others;
      assert first in inners;
    }
  }
}
