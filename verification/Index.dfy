/** The table of indexed values: kept up to date by every write, and what a query finds in it. */
module Index {
  import opened Documents
  import opened Getters
  import opened QueryParser
  import opened Texts
  import opened Wrappers

  /** A row of the table; a null value is `None`. */
  datatype Row = Row(docId: string, field: string, value: Option<string>)

  // ---------- values in columns ----------

  /** How a value is stored in a text column; `realText` prints reals. */
  function Column(v: Json, realText: real -> string): Option<string> {
    match v
    case Text(s) => Some(s)
    case Integer(n) => Some(IntToString(n))
    case Boolean(b) => Some(if b then "1" else "0")
    case Real(r) => Some(realText(r))
    case _ => None
  }

  function Columns(vs: seq<Json>, realText: real -> string): seq<Option<string>> {
    if vs == [] then [] else [Column(vs[0], realText)] + Columns(vs[1..], realText)
  }

  /** What an index expression is worth on a document. */
  function Values(field: string, doc: Json, realText: real -> string): seq<Option<string>> {
    var g := Parse(field);
    if g.Err? then [] else Columns(Get(g.value, doc), realText)
  }

  // ---------- the table ----------

  function RowsFor(docId: string, field: string, vs: seq<Option<string>>): seq<Row> {
    if vs == [] then [] else RowsFor(docId, field, vs[..|vs| - 1]) + [Row(docId, field, vs[|vs| - 1])]
  }

  /** The values the table has for one document and one field, in order. */
  function ValuesIn(rows: seq<Row>, docId: string, field: string): seq<Option<string>> {
    if rows == [] then []
    else
      var before, last := ValuesIn(rows[..|rows| - 1], docId, field), rows[|rows| - 1];
      if last.docId == docId && last.field == field then before + [last.value] else before
  }

  function WithoutDoc(rows: seq<Row>, docId: string): seq<Row> {
    if rows == [] then []
    else
      var before, last := WithoutDoc(rows[..|rows| - 1], docId), rows[|rows| - 1];
      if last.docId == docId then before else before + [last]
  }

  function OnlyFields(rows: seq<Row>, fields: set<string>): seq<Row> {
    if rows == [] then []
    else
      var before, last := OnlyFields(rows[..|rows| - 1], fields), rows[|rows| - 1];
      if last.field in fields then before + [last] else before
  }

  lemma ValuesOneMore(rows: seq<Row>, row: Row, d: string, f: string)
    ensures ValuesIn(rows + [row], d, f) ==
      ValuesIn(rows, d, f) + if row.docId == d && row.field == f then [row.value] else []
  {
    assert (rows + [row])[..|rows|] == rows;
  }

  lemma {:induction false} ValuesAppend(a: seq<Row>, b: seq<Row>, d: string, f: string)
    ensures ValuesIn(a + b, d, f) == ValuesIn(a, d, f) + ValuesIn(b, d, f)
  {
    if b == [] {
      assert a + b == a;
    } else {
      var init, last := b[..|b| - 1], b[|b| - 1];
      ValuesAppend(a, init, d, f);
      assert a + b == (a + init) + [last] && b == init + [last];
      ValuesOneMore(a + init, last, d, f);
      ValuesOneMore(init, last, d, f);
      hide ValuesIn;
    }
  }

  lemma {:induction false} ValuesOfRows(docId: string, field: string, vs: seq<Option<string>>, d: string, f: string)
    ensures ValuesIn(RowsFor(docId, field, vs), d, f) == if d == docId && f == field then vs else []
  {
    if vs != [] {
      var init, v := vs[..|vs| - 1], vs[|vs| - 1];
      ValuesOfRows(docId, field, init, d, f);
      ValuesOneMore(RowsFor(docId, field, init), Row(docId, field, v), d, f);
      assert vs == init + [v];
    }
  }

  lemma {:induction false} ValuesWithoutDoc(rows: seq<Row>, docId: string, d: string, f: string)
    ensures ValuesIn(WithoutDoc(rows, docId), d, f) == if d == docId then [] else ValuesIn(rows, d, f)
  {
    if rows != [] {
      var init, last := rows[..|rows| - 1], rows[|rows| - 1];
      ValuesWithoutDoc(init, docId, d, f);
      ValuesOneMore(WithoutDoc(init, docId), last, d, f);
    }
  }

  lemma {:induction false} ValuesOfFields(rows: seq<Row>, fields: set<string>, d: string, f: string)
    ensures ValuesIn(OnlyFields(rows, fields), d, f) == if f in fields then ValuesIn(rows, d, f) else []
  {
    if rows != [] {
      var init, last := rows[..|rows| - 1], rows[|rows| - 1];
      ValuesOfFields(init, fields, d, f);
      ValuesOneMore(OnlyFields(init, fields), last, d, f);
    }
  }

  lemma {:induction false} ValuesAreRows(rows: seq<Row>, d: string, f: string, v: Option<string>)
    ensures v in ValuesIn(rows, d, f) <==> Row(d, f, v) in rows
  {
    if rows != [] {
      var init, last := rows[..|rows| - 1], rows[|rows| - 1];
      assert rows == init + [last];
      ValuesAreRows(init, d, f, v);
    }
  }

  // ---------- agreement ----------

  /** Every field some index is defined on. */
  function Fields(definitions: map<string, seq<string>>): set<string> {
    set name <- definitions.Keys, f <- definitions[name] :: f
  }

  /**
   * A live document has exactly the values of every indexed expression. A deleted one has those of
   * an empty document for the fields indexed ever since it was deleted, and none for the others.
   */
  ghost predicate Agrees(vs: seq<Option<string>>, doc: Option<Content>, indexed: bool, since: bool, field: string,
                         realText: real -> string)
  {
    if !indexed || doc.None? then vs == []
    else if doc.value.Some? then vs == Values(field, doc.value.value, realText)
    else vs == if since then Values(field, NOTHING, realText) else []
  }

  /** A deleted document is evaluated as an empty one. */
  function RawDoc(content: Content): Json {
    if content.Some? then content.value else NOTHING
  }

  function Lookup(document: map<string, Content>, d: string): Option<Content> {
    if d in document then Some(document[d]) else None
  }

  // ---------- queries ----------

  /** The database's pattern match, pattern first. */
  type Glob = (string, string) -> bool

  predicate MatchesKey(key: string, v: Option<string>, glob: Glob) {
    v.Some? && (key == "*" || if IsWildcard(key) then glob(key, v.value) else v.value == key)
  }

  predicate HasValue(vs: seq<Option<string>>, key: string, glob: Glob) {
    exists v <- vs :: MatchesKey(key, v, glob)
  }

  predicate HasRow(rows: seq<Row>, d: string, f: string, key: string, glob: Glob) {
    exists row <- rows :: row.docId == d && row.field == f && MatchesKey(key, row.value, glob)
  }

  lemma RowsHoldValues(rows: seq<Row>, d: string, f: string, key: string, glob: Glob)
    ensures HasRow(rows, d, f, key, glob) <==> HasValue(ValuesIn(rows, d, f), key, glob)
  {
    hide ValuesIn, MatchesKey;
    forall v: Option<string> ensures v in ValuesIn(rows, d, f) <==> Row(d, f, v) in rows {
      ValuesAreRows(rows, d, f, v);
    }
    if row :| row in rows && row.docId == d && row.field == f && MatchesKey(key, row.value, glob) {
      assert row == Row(d, f, row.value);
    }
  }

  /** A matching value for every expression, found by evaluating them on the document. */
  ghost predicate ScanFinds(doc: Json, definition: seq<string>, keys: seq<string>, realText: real -> string, glob: Glob)
    requires |keys| == |definition|
  {
    forall i :: 0 <= i < |keys| ==> HasValue(Values(definition[i], doc, realText), keys[i], glob)
  }

  /** The join: one matching row for every expression. */
  predicate JoinFinds(rows: seq<Row>, d: string, definition: seq<string>, keys: seq<string>, glob: Glob)
    requires |keys| == |definition|
  {
    forall i :: 0 <= i < |keys| ==> HasRow(rows, d, definition[i], keys[i], glob)
  }

  /** A single star matches every value; a longer text that ends with one is a pattern. */
  predicate IsWildcard(key: string) {
    key != "" && key[|key| - 1] == '*'
  }

  /** Behind a wildcard there are only single stars. */
  predicate GlobsAreLast(keys: seq<string>) {
    forall i, j :: 0 <= i < j < |keys| && IsWildcard(keys[i]) ==> keys[j] == "*"
  }

  class IndexedDatabase {
    const realText: real -> string
    const glob: Glob
    var document: map<string, Content>
    var definitions: map<string, seq<string>>
    var documentFields: seq<Row>
    /** The fields indexed when a document was last written and ever since. */
    ghost var keptSince: map<string, set<string>>

    constructor (realText: real -> string, glob: Glob)
      ensures Valid() && document == map[] && definitions == map[] && keptSince == map[]
      ensures this.realText == realText && this.glob == glob
    {
      this.realText, this.glob := realText, glob;
      document, definitions, documentFields, keptSince := map[], map[], [], map[];
    }

    ghost predicate IndexedSince(d: string, f: string)
      reads this
    {
      d in keptSince && f in keptSince[d]
    }

    ghost predicate CellAgrees(d: string, f: string)
      reads this
    {
      && (IndexedSince(d, f) ==> f in Fields(definitions))
      && Agrees(ValuesIn(documentFields, d, f), Lookup(document, d), f in Fields(definitions), IndexedSince(d, f),
                f, realText)
    }

    ghost predicate Valid()
      reads this
    {
      && (forall name <- definitions.Keys :: definitions[name] != [])
      && (forall f <- Fields(definitions) :: Parse(f).Ok?)
      && (forall d, f :: CellAgrees(d, f))
    }

    // ---------- writing ----------

    /** Adds the values of some fields of one document to the table. */
    method UpdateIndexes(docId: string, rawDoc: Json, fields: set<string>)
      modifies this`documentFields
      ensures forall d, f ::
        ValuesIn(documentFields, d, f) == old(ValuesIn(documentFields, d, f))
          + if d == docId && f in fields then Values(f, rawDoc, realText) else []
    {
      hide Values;
      var todo, added: seq<Row> := fields, [];
      while todo != {}
        invariant todo <= fields
        invariant forall d, f ::
          ValuesIn(added, d, f) == if d == docId && f in fields - todo then Values(f, rawDoc, realText) else []
      {
        var f :| f in todo;
        todo := todo - {f};
        var rows := RowsFor(docId, f, Values(f, rawDoc, realText));
        forall d, x ensures ValuesIn(added + rows, d, x) == ValuesIn(added, d, x)
            + if d == docId && x == f then Values(f, rawDoc, realText) else []
        {
          ValuesAppend(added, rows, d, x);
          ValuesOfRows(docId, f, Values(f, rawDoc, realText), d, x);
        }
        added := added + rows;
      }
      forall d, f ensures ValuesIn(documentFields + added, d, f) == ValuesIn(documentFields, d, f) + ValuesIn(added, d, f) {
        ValuesAppend(documentFields, added, d, f);
      }
      documentFields := documentFields + added;
    }

    /** Writing a document replaces its rows; a deleted one is indexed as an empty one. */
    method PutAndUpdateIndexes(docId: string, content: Content)
      requires Valid()
      modifies this`document, this`documentFields, this`keptSince
      ensures Valid() && document == old(document)[docId := content]
      ensures keptSince == old(keptSince)[docId := Fields(definitions)]
      ensures forall d, f ::
        ValuesIn(documentFields, d, f) ==
          if d != docId then old(ValuesIn(documentFields, d, f))
          else if f in Fields(definitions) then Values(f, RawDoc(content), realText)
          else []
    {
      hide Values, Parse, ValuesIn, Fields;
      var rawDoc := RawDoc(content);
      assert forall d, f :: CellAgrees(d, f);
      if docId in document {
        forall d, f ensures ValuesIn(WithoutDoc(documentFields, docId), d, f) ==
          if d == docId then [] else ValuesIn(documentFields, d, f)
        {
          ValuesWithoutDoc(documentFields, docId, d, f);
        }
        documentFields := WithoutDoc(documentFields, docId);
      }
      document := document[docId := content];
      var fields := Fields(definitions);
      keptSince := keptSince[docId := fields];
      assert forall f :: ValuesIn(documentFields, docId, f) == [] by {
        if docId !in old(document) {
          forall f ensures ValuesIn(documentFields, docId, f) == [] {
            assert old(CellAgrees(docId, f));
          }
        }
      }
      UpdateIndexes(docId, rawDoc, fields);
      forall d, f ensures CellAgrees(d, f) {
        assert old(CellAgrees(d, f));
      }
    }

    /** Adds the values of new fields for every live document. */
    method UpdateAllIndexes(newFields: set<string>)
      modifies this`documentFields
      ensures forall d, f ::
        ValuesIn(documentFields, d, f) == old(ValuesIn(documentFields, d, f))
          + if d in document && document[d].Some? && f in newFields then Values(f, document[d].value, realText) else []
    {
      hide Values, ValuesIn;
      var todo := document.Keys;
      while todo != {}
        invariant todo <= document.Keys
        invariant forall d, f ::
          ValuesIn(documentFields, d, f) == old(ValuesIn(documentFields, d, f))
            + if d in document.Keys - todo && document[d].Some? && f in newFields
              then Values(f, document[d].value, realText) else []
      {
        var docId :| docId in todo;
        todo := todo - {docId};
        if document[docId].Some? {
          UpdateIndexes(docId, document[docId].value, newFields);
        }
      }
    }

    /** A definition that does not parse leaves everything as it was; so does one that is already there. */
    method CreateIndex(indexName: string, expressions: seq<string>) returns (r: Result<()>)
      requires Valid()
      modifies this`definitions, this`documentFields
      ensures Valid()
      ensures var taken := expressions != [] && indexName in old(definitions);
        && (taken ==> r == if old(definitions)[indexName] == expressions then Ok(()) else Err(IndexNameTaken))
        && (!taken ==> (r.Ok? <==> forall f <- expressions :: Parse(f).Ok?))
        && (!taken && r.Err? ==> exists f <- expressions :: Parse(f).Err? && Parse(f).error == r.error)
        && (r.Ok? && !taken && expressions != [] ==> definitions == old(definitions)[indexName := expressions])
        && (r.Err? || taken || expressions == [] ==>
             definitions == old(definitions) && documentFields == old(documentFields))
      ensures forall d, f ::
        f in Fields(old(definitions)) ==> ValuesIn(documentFields, d, f) == old(ValuesIn(documentFields, d, f))
    {
      hide Values, Parse, ValuesIn;
      var curFields := Fields(definitions);
      if expressions != [] && indexName in definitions {
        if definitions[indexName] == expressions {
          return Ok(());
        }
        return Err(IndexNameTaken);
      }
      if expressions == [] {
        return Ok(());
      }
      var newFields := set f <- expressions | f !in curFields;
      var todo := newFields;
      while todo != {}
        invariant todo <= newFields && forall f <- newFields - todo :: Parse(f).Ok?
      {
        var f :| f in todo;
        todo := todo - {f};
        var getter := Parse(f);
        if getter.Err? {
          return Err(getter.error);
        }
      }
      assert forall f <- expressions :: Parse(f).Ok? by {
        assert forall f <- expressions :: f in newFields || f in curFields;
      }
      definitions := definitions[indexName := expressions];
      FieldsOfOneMore(old(definitions), indexName, expressions);
      UpdateAllIndexes(newFields);
      hide Fields;
      forall d, f ensures CellAgrees(d, f) {
        assert old(CellAgrees(d, f));
      }
      return Ok(());
    }

    method DeleteIndex(indexName: string)
      requires Valid()
      modifies this`definitions, this`documentFields, this`keptSince
      ensures Valid() && definitions == old(definitions) - {indexName}
      ensures keptSince == map d <- old(keptSince) :: old(keptSince)[d] * Fields(definitions)
      ensures forall d, f ::
        ValuesIn(documentFields, d, f) == if f in Fields(definitions) then old(ValuesIn(documentFields, d, f)) else []
    {
      hide Values, Parse, ValuesIn;
      definitions := definitions - {indexName};
      var fields := Fields(definitions);
      assert forall f <- fields :: f in Fields(old(definitions));
      forall d, f
        ensures ValuesIn(OnlyFields(documentFields, fields), d, f) ==
          if f in fields then ValuesIn(documentFields, d, f) else []
      {
        ValuesOfFields(documentFields, fields, d, f);
      }
      documentFields := OnlyFields(documentFields, fields);
      keptSince := map d <- keptSince :: keptSince[d] * fields;
      hide Fields;
      forall d, f ensures CellAgrees(d, f) {
        assert old(CellAgrees(d, f));
      }
    }

    // ---------- querying ----------

    /**
     * A live document is found exactly when evaluating the expressions on it finds it, a deleted
     * one exactly when they were all indexed since the deletion and nothing has matching values.
     */
    method GetFromIndex(indexName: string, keys: seq<string>) returns (r: Result<set<string>>)
      requires Valid()
      ensures r.Err? ==> r.error == if indexName !in definitions then IndexDoesNotExist
        else if |keys| != |definitions[indexName]| then InvalidValueForIndex else InvalidGlobbing
      ensures r.Ok? <==>
        && indexName in definitions
        && |keys| == |definitions[indexName]|
        && forall i, j :: 0 <= i < j < |keys| && keys[i] != "" && keys[i][|keys[i]| - 1] == '*' ==> keys[j] == "*"
      ensures r.Ok? ==> forall d :: d in r.value <==> d in document && IsFound(indexName, keys, d)
    {
      if indexName !in definitions {
        return Err(IndexDoesNotExist);
      }
      var definition := definitions[indexName];
      if |keys| != |definition| {
        return Err(InvalidValueForIndex);
      }
      var isWildcard := false;
      for i := 0 to |keys|
        invariant GlobsAreLast(keys[..i]) && (isWildcard <==> exists k :: 0 <= k < i && IsWildcard(keys[k]))
      {
        assert keys[..i + 1] == keys[..i] + [keys[i]];
        if keys[i] == "*" {
          isWildcard := true;
        } else if isWildcard {
          return Err(InvalidGlobbing);
        } else if IsWildcard(keys[i]) {
          isWildcard := true;
        }
      }
      assert keys[..|keys|] == keys;
      forall d <- document.Keys
        ensures JoinFinds(documentFields, d, definition, keys, glob) <==> IsFound(indexName, keys, d)
      {
        JoinFindsExactlyWhen(indexName, keys, d);
      }
      return Ok(set d <- document.Keys | JoinFinds(documentFields, d, definition, keys, glob));
    }

    ghost predicate IsFound(indexName: string, keys: seq<string>, d: string)
      requires indexName in definitions && |keys| == |definitions[indexName]|
      requires d in document
      reads this
    {
      var definition := definitions[indexName];
      && ScanFinds(RawDoc(document[d]), definition, keys, realText, glob)
      && (document[d].None? ==> forall f <- definition :: IndexedSince(d, f))
    }

    /** Looking into the table finds a document exactly when looking at the document does. */
    lemma JoinFindsExactlyWhen(indexName: string, keys: seq<string>, d: string)
      requires Valid() && indexName in definitions && |keys| == |definitions[indexName]|
      requires d in document
      ensures JoinFinds(documentFields, d, definitions[indexName], keys, glob) <==> IsFound(indexName, keys, d)
    {
      hide Values, Parse, ValuesIn, HasRow, HasValue;
      var definition := definitions[indexName];
      forall i | 0 <= i < |keys|
        ensures HasRow(documentFields, d, definition[i], keys[i], glob) <==>
          && HasValue(Values(definition[i], RawDoc(document[d]), realText), keys[i], glob)
          && (document[d].None? ==> IndexedSince(d, definition[i]))
      {
        var f := definition[i];
        assert f in definitions[indexName] && f in Fields(definitions);
        assert CellAgrees(d, f);
        RowsHoldValues(documentFields, d, f, keys[i], glob);
        NoValueMatches(keys[i]);
      }
    }

    lemma NoValueMatches(key: string)
      ensures !HasValue([], key, glob)
    {}

    /** A deleted document is never found through an expression that cannot have a value on nothing. */
    lemma DeletedIsNotFound(indexName: string, keys: seq<string>, d: string, f: string)
      requires Valid() && indexName in definitions && |keys| == |definitions[indexName]|
      requires d in document && document[d].None?
      requires f in definitions[indexName] && !UsesIsNull(Parse(f).value)
      ensures !JoinFinds(documentFields, d, definitions[indexName], keys, glob)
    {
      JoinFindsExactlyWhen(indexName, keys, d);
      assert f in Fields(definitions);
      NothingHasNoValues(Parse(f).value);
      hide Parse, ValuesIn, Get, UsesIsNull, JoinFinds;
      assert Values(f, NOTHING, realText) == [];
      var definition := definitions[indexName];
      var i :| 0 <= i < |definition| && definition[i] == f;
      NoValueMatches(keys[i]);
    }
  }

  // ---------- the order of deleting and indexing ----------

  const X_IS_NULL := Print(IsNull(Field(["x"])))

  lemma XIsNullIsParsed()
    ensures Parse(X_IS_NULL) == Ok(IsNull(Field(["x"])))
  {
    hide Parse, Print;
    assert WellFormed(IsNull(Field(["x"])));
    PrintedExpressionIsParsed(IsNull(Field(["x"])));
  }

  lemma XIsNullOfNothing(realText: real -> string, glob: Glob)
    ensures Parse(X_IS_NULL).Ok?
    ensures ScanFinds(NOTHING, [X_IS_NULL], ["1"], realText, glob)
  {
    hide Parse, Print;
    XIsNullIsParsed();
    assert Get(IsNull(Field(["x"])), NOTHING) == [Boolean(true)];
    assert Columns([Boolean(true)], realText) == [Some("1")];
    assert Values(X_IS_NULL, NOTHING, realText) == [Some("1")];
    assert MatchesKey("1", Some("1"), glob);
  }

  lemma NothingIsGlobbed(key: string)
    ensures GlobsAreLast([key])
  {}

  /** Deleted before the index was created, a document is not found through is_null. */
  method DeleteThenIndex(realText: real -> string, glob: Glob, content: Json) returns (r: Result<set<string>>)
    ensures r == Ok({})
  {
    hide Print, Parse, ScanFinds, ValuesIn, Values, X_IS_NULL;
    XIsNullOfNothing(realText, glob);
    NothingIsGlobbed("1");
    var db := new IndexedDatabase(realText, glob);
    db.PutAndUpdateIndexes("d", Some(content));
    db.PutAndUpdateIndexes("d", None);
    assert db.keptSince["d"] == {};
    var created := db.CreateIndex("i", [X_IS_NULL]);
    assert db.definitions["i"] == [X_IS_NULL] && X_IS_NULL in db.definitions["i"];
    assert !db.IndexedSince("d", X_IS_NULL);
    r := db.GetFromIndex("i", ["1"]);
    assert r.Ok? && r.value == {};
  }

  /** Deleted after the index was created, it is found. */
  method IndexThenDelete(realText: real -> string, glob: Glob, content: Json) returns (r: Result<set<string>>)
    ensures r == Ok({"d"})
  {
    hide Print, Parse, ScanFinds, ValuesIn, Values, X_IS_NULL;
    XIsNullOfNothing(realText, glob);
    NothingIsGlobbed("1");
    var db := new IndexedDatabase(realText, glob);
    var created := db.CreateIndex("i", [X_IS_NULL]);
    assert db.definitions["i"] == [X_IS_NULL] && X_IS_NULL in db.definitions["i"];
    db.PutAndUpdateIndexes("d", Some(content));
    db.PutAndUpdateIndexes("d", None);
    assert db.IndexedSince("d", X_IS_NULL);
    r := db.GetFromIndex("i", ["1"]);
    assert db.document.Keys == {"d"};
    assert r.Ok? && r.value == {"d"};
  }

  lemma FieldsOfOneMore(definitions: map<string, seq<string>>, name: string, fields: seq<string>)
    requires name !in definitions
    ensures Fields(definitions[name := fields]) == Fields(definitions) + (set f <- fields)
  {
    var longer := definitions[name := fields];
    forall f ensures f in Fields(longer) <==> f in Fields(definitions) || f in fields {
      if f in Fields(definitions) {
        var n :| n in definitions && f in definitions[n];
        assert n in longer && f in longer[n];
      }
      if f in fields {
        assert f in longer[name];
      }
    }
  }
}
