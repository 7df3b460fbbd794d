/** What an index expression computes from a document. */
module Getters {
  import opened Documents
  import opened Texts

  datatype Getter =
    | Field(path: seq<string>)
    | Lower(inner: Getter)
    | Number(inner: Getter, padding: int)
    | Bool(inner: Getter)
    | SplitWords(inner: Getter)
    | IsNull(inner: Getter)
    | Combine(inners: seq<Getter>)

  // ---------- fields ----------

  predicate IsSimple(v: Json) {
    !v.Array? && !v.Object?
  }

  function SimpleOnes(vs: seq<Json>): seq<Json> {
    if vs == [] then [] else (if IsSimple(vs[0]) then [vs[0]] else []) + SimpleOnes(vs[1..])
  }

  /** Follows a dotted path. A list is looked into item by item; an object has no value of its own. */
  function ExtractField(doc: Json, path: seq<string>): seq<Json>
    requires path != []
    decreases |path|, doc, 1
  {
    if !doc.Object? || path[0] !in doc.fields then []
    else
      var val := doc.fields[path[0]];
      if val.Null? then []
      else if |path| > 1 then
        if val.Array? then ExtractEach(val.items, path[1..])
        else if val.Object? then ExtractField(val, path[1..])
        else []
      else if val.Object? then []
      else if val.Array? then SimpleOnes(val.items)
      else [val]
  }

  function ExtractEach(items: seq<Json>, path: seq<string>): seq<Json>
    requires path != []
    decreases |path|, items, 2
  {
    if items == [] then [] else ExtractField(items[0], path) + ExtractEach(items[1..], path)
  }

  // ---------- transformations ----------

  function LowerChar(c: char): char {
    if 'A' <= c <= 'Z' then 'a' + (c - 'A') else c
  }

  function LowerText(s: string): string {
    if s == "" then "" else [LowerChar(s[0])] + LowerText(s[1..])
  }

  function LowerAll(vs: seq<Json>): seq<Json> {
    if vs == [] then []
    else (if vs[0].Text? then [Text(LowerText(vs[0].s))] else []) + LowerAll(vs[1..])
  }

  function Repeat(c: char, n: int): string {
    if n <= 0 then "" else [c] + Repeat(c, n - 1)
  }

  /** Zeros go between the sign and the digits; a negative width pads on the right. */
  function Padded(n: int, width: int): string {
    var digits := Decimal(if n < 0 then -n else n);
    var sign := if n < 0 then "-" else "";
    if width >= 0 then sign + Repeat('0', width - |sign| - |digits|) + digits
    else sign + digits + Repeat(' ', -width - |sign| - |digits|)
  }

  function NumberAll(vs: seq<Json>, width: int): seq<Json> {
    if vs == [] then []
    else (if vs[0].Integer? then [Text(Padded(vs[0].n, width))] else []) + NumberAll(vs[1..], width)
  }

  function BoolAll(vs: seq<Json>): seq<Json> {
    if vs == [] then []
    else (if vs[0].Boolean? then [Text(if vs[0].b then "1" else "0")] else []) + BoolAll(vs[1..])
  }

  /** The words of a text, separated by blanks. */
  function Words(s: string, word: string): set<string> {
    var done := if word == "" then {} else {word};
    if s == "" then done
    else if IsBlank(s[0]) then done + Words(s[1..], "")
    else Words(s[1..], word + [s[0]])
  }

  function AllWords(vs: seq<Json>): set<string> {
    if vs == [] then {} else (if vs[0].Text? then Words(vs[0].s, "") else {}) + AllWords(vs[1..])
  }

  function TextsOf(words: seq<string>): seq<Json> {
    if words == [] then [] else [Text(words[0])] + TextsOf(words[1..])
  }

  // ---------- evaluation ----------

  function Get(g: Getter, doc: Json): seq<Json>
    decreases g
  {
    match g
    case Field(path) => if path == [] then [] else ExtractField(doc, path)
    case Lower(inner) => LowerAll(Get(inner, doc))
    case Number(inner, padding) => NumberAll(Get(inner, doc), padding)
    case Bool(inner) => BoolAll(Get(inner, doc))
    case SplitWords(inner) => TextsOf(Sorted(AllWords(Get(inner, doc))))
    case IsNull(inner) => [Boolean(Get(inner, doc) == [])]
    case Combine(inners) => GetEach(inners, doc)
  }

  function GetEach(gs: seq<Getter>, doc: Json): seq<Json>
    decreases gs
  {
    if gs == [] then [] else Get(gs[0], doc) + GetEach(gs[1..], doc)
  }

  /** Whether an expression can have a value where nothing is. */
  predicate UsesIsNull(g: Getter)
    decreases g
  {
    match g
    case Field(_) => false
    case Lower(inner) => UsesIsNull(inner)
    case Number(inner, _) => UsesIsNull(inner)
    case Bool(inner) => UsesIsNull(inner)
    case SplitWords(inner) => UsesIsNull(inner)
    case IsNull(_) => true
    case Combine(inners) => exists k :: 0 <= k < |inners| && UsesIsNull(inners[k])
  }

  const NOTHING := Object(map[])

  /** A deleted document, evaluated as an empty one, has values only under an is_null. */
  lemma {:induction false} NothingHasNoValues(g: Getter)
    requires !UsesIsNull(g)
    ensures Get(g, NOTHING) == []
    decreases g
  {
    match g
    case Field(_) =>
    case Lower(inner) => NothingHasNoValues(inner);
    case Number(inner, _) => NothingHasNoValues(inner);
    case Bool(inner) => NothingHasNoValues(inner);
    case SplitWords(inner) => NothingHasNoValues(inner);
    case Combine(inners) => NoneHasValues(inners);
  }

  lemma {:induction false} NoneHasValues(gs: seq<Getter>)
    requires forall k :: 0 <= k < |gs| ==> !UsesIsNull(gs[k])
    ensures GetEach(gs, NOTHING) == []
    decreases gs
  {
    if gs != [] {
      NothingHasNoValues(gs[0]);
      NoneHasValues(gs[1..]);
    }
  }

  /** Whatever the document, an expression only has simple values: they fit into a column. */
  lemma {:induction false} ValuesAreSimple(g: Getter, doc: Json)
    ensures forall v <- Get(g, doc) :: IsSimple(v)
    decreases g
  {
    match g
    case Field(path) => if path != [] { FieldsAreSimple(doc, path); }
    case Lower(inner) => LowerIsSimple(Get(inner, doc));
    case Number(inner, padding) => NumberIsSimple(Get(inner, doc), padding);
    case Bool(inner) => BoolIsSimple(Get(inner, doc));
    case SplitWords(inner) => TextsAreSimple(Sorted(AllWords(Get(inner, doc))));
    case IsNull(_) =>
    case Combine(inners) => EachIsSimple(inners, doc);
  }

  lemma {:induction false} EachIsSimple(gs: seq<Getter>, doc: Json)
    ensures forall v <- GetEach(gs, doc) :: IsSimple(v)
    decreases gs
  {
    if gs != [] {
      ValuesAreSimple(gs[0], doc);
      EachIsSimple(gs[1..], doc);
    }
  }

  lemma {:induction false} FieldsAreSimple(doc: Json, path: seq<string>)
    requires path != []
    ensures forall v <- ExtractField(doc, path) :: IsSimple(v)
    decreases |path|, doc, 1
  {
    if doc.Object? && path[0] in doc.fields {
      var val := doc.fields[path[0]];
      if |path| > 1 {
        if val.Array? {
          ItemsAreSimple(val.items, path[1..]);
        } else if val.Object? {
          FieldsAreSimple(val, path[1..]);
        }
      } else if val.Array? {
        OnesAreSimple(val.items);
      }
    }
  }

  lemma {:induction false} ItemsAreSimple(items: seq<Json>, path: seq<string>)
    requires path != []
    ensures forall v <- ExtractEach(items, path) :: IsSimple(v)
    decreases |path|, items, 2
  {
    if items != [] {
      FieldsAreSimple(items[0], path);
      ItemsAreSimple(items[1..], path);
    }
  }

  lemma OnesAreSimple(vs: seq<Json>)
    ensures forall v <- SimpleOnes(vs) :: IsSimple(v)
  {}

  lemma LowerIsSimple(vs: seq<Json>)
    ensures forall v <- LowerAll(vs) :: IsSimple(v)
  {}

  lemma NumberIsSimple(vs: seq<Json>, width: int)
    ensures forall v <- NumberAll(vs, width) :: IsSimple(v)
  {}

  lemma BoolIsSimple(vs: seq<Json>)
    ensures forall v <- BoolAll(vs) :: IsSimple(v)
  {}

  lemma TextsAreSimple(words: seq<string>)
    ensures forall v <- TextsOf(words) :: IsSimple(v)
  {}
}
