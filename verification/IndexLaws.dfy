/** What a query finds, told from the documents alone. */
module IndexLaws {
  import opened Documents
  import opened GetterLaws
  import opened Getters
  import opened Index
  import opened QueryParser
  import opened Texts
  import opened Wrappers

  /** Whether a value answers a key: any value a lone star, and else its text, in whole or by a pattern. */
  ghost predicate Answers(v: Json, key: string, realText: real -> string, glob: Glob) {
    match v
    case Null => false
    case Boolean(b) => TextAnswers(if b then "1" else "0", key, glob)
    case Integer(n) => TextAnswers(IntToString(n), key, glob)
    case Real(r) => TextAnswers(realText(r), key, glob)
    case Text(s) => TextAnswers(s, key, glob)
    case Array(_) => false
    case Object(_) => false
  }

  ghost predicate TextAnswers(text: string, key: string, glob: Glob) {
    if key == "*" then true
    else if key != "" && key[|key| - 1] == '*' then glob(key, text)
    else text == key
  }

  lemma {:induction false} HasValueExactly(vs: seq<Json>, realText: real -> string, key: string, glob: Glob)
    ensures HasValue(Columns(vs, realText), key, glob) <==> exists v <- vs :: Answers(v, key, realText, glob)
  {
    if vs != [] {
      var first, others := vs[0], vs[1..];
      HasValueExactly(others, realText, key, glob);
      assert MatchesKey(key, Column(first, realText), glob) <==> Answers(first, key, realText, glob);
      hide MatchesKey, Answers, Column;
      var column := Column(first, realText);
      assert Columns(vs, realText) == [column] + Columns(others, realText);
      assert column in Columns(vs, realText) && first in vs;
      assert forall v :: v in vs <==> v == first || v in others;
      assert forall c :: c in Columns(vs, realText) <==> c == column || c in Columns(others, realText);
    }
  }

  ghost predicate HasAnswer(expression: string, doc: Json, key: string, realText: real -> string, glob: Glob)
    requires Parse(expression).Ok?
  {
    exists v <- Get(Parse(expression).value, doc) :: Answers(v, key, realText, glob)
  }

  lemma HasAnswerExactly(expression: string, doc: Json, key: string, realText: real -> string, glob: Glob)
    requires Parse(expression).Ok?
    ensures HasAnswer(expression, doc, key, realText, glob) <==>
      HasValue(Values(expression, doc, realText), key, glob)
  {
    hide Parse, Get, Answers, HasValue;
    HasValueExactly(Get(Parse(expression).value, doc), realText, key, glob);
  }

  /**
   * A document is found exactly if every expression of the index has a value on it that answers the
   * key. A deleted one is taken as empty, and only if the index has been there since.
   */
  lemma FoundExactlyWhen(db: IndexedDatabase, indexName: string, keys: seq<string>, d: string)
    requires db.Valid() && indexName in db.definitions && |keys| == |db.definitions[indexName]|
    requires d in db.document
    ensures forall f <- db.definitions[indexName] :: Parse(f).Ok?
    ensures var definition := db.definitions[indexName];
      var doc := if db.document[d].Some? then db.document[d].value else Object(map[]);
      db.IsFound(indexName, keys, d) <==>
        && (forall i :: 0 <= i < |keys| ==> HasAnswer(definition[i], doc, keys[i], db.realText, db.glob))
        && (db.document[d].None? ==> forall f <- definition :: db.IndexedSince(d, f))
  {
    var definition, doc := db.definitions[indexName], RawDoc(db.document[d]);
    assert doc == if db.document[d].Some? then db.document[d].value else Object(map[]);
    hide Parse, HasAnswer, HasValue, Values, RawDoc;
    assert forall f <- definition :: f in Fields(db.definitions);
    forall i | 0 <= i < |keys|
      ensures HasValue(Values(definition[i], doc, db.realText), keys[i], db.glob) <==>
        HasAnswer(definition[i], doc, keys[i], db.realText, db.glob)
    {
      assert definition[i] in definition;
      HasAnswerExactly(definition[i], doc, keys[i], db.realText, db.glob);
    }
  }

  // ---------- a field by its name ----------

  /** A name that is not an operation's call, a list of arguments or a dotted path. */
  ghost predicate IsPlain(name: string) {
    && name != ""
    && (forall c <- name :: c !in ['(', ')', ',', '.'])
    && name[0] !in [' ', '\t', '\n', '\r', '\U{0b}', '\U{0c}']
    && name[|name| - 1] !in [' ', '\t', '\n', '\r', '\U{0b}', '\U{0c}']
  }

  lemma PlainNameIsAField(name: string)
    requires IsPlain(name)
    ensures Parse(name) == Ok(Field([name]))
  {
    hide Parse;
    assert name[|name| - 1] in name;
    assert Print(Field([name])) == name;
    assert WellFormed(Field([name]));
    PrintedExpressionIsParsed(Field([name]));
  }

  /** Whether a value is, or a list has an item that is, printed as this text. */
  ghost predicate Shows(value: Json, text: string, realText: real -> string) {
    match value
    case Array(_) => exists v <- value.items :: !v.Array? && Shows(v, text, realText)
    case Boolean(b) => text == if b then "1" else "0"
    case Integer(n) => text == IntToString(n)
    case Real(r) => text == realText(r)
    case Text(s) => text == s
    case Null => false
    case Object(_) => false
  }

  /** The value itself, or an item of the list, if it is neither an object nor a list. */
  ghost predicate IsValueOf(v: Json, value: Json) {
    !v.Array? && !v.Object? && if value.Array? then v in value.items else !value.Null? && v == value
  }

  lemma PlainFieldHasExactly(name: string, doc: Json, v: Json)
    ensures v in Get(Field([name]), doc) <==>
      doc.Object? && name in doc.fields && IsValueOf(v, doc.fields[name])
  {
    hide Get;
    FieldHasExactly([name], doc, v);
    if LeadsTo(doc, name, v) {
      assert IsTrail([doc, v], [name], doc, v);
    }
  }

  /** An index on the name of a field finds exactly the live documents that show the key under that name. */
  method GetByField(db: IndexedDatabase, indexName: string, name: string, key: string) returns (r: Result<set<string>>)
    requires db.Valid() && indexName in db.definitions && db.definitions[indexName] == [name]
    requires IsPlain(name) && (key == "" || key[|key| - 1] != '*')
    ensures r.Ok?
    ensures forall d :: d in r.value <==>
      && d in db.document
      && db.document[d].Some?
      && db.document[d].value.Object?
      && name in db.document[d].value.fields
      && Shows(db.document[d].value.fields[name], key, db.realText)
  {
    hide IsPlain, Parse, Get, ScanFinds, Shows;
    assert db.definitions[indexName][..] == [name];
    NothingIsGlobbed(key);
    r := db.GetFromIndex(indexName, [key]);
    forall d <- db.document.Keys
      ensures db.IsFound(indexName, [key], d) <==>
        && db.document[d].Some? && db.document[d].value.Object? && name in db.document[d].value.fields
        && Shows(db.document[d].value.fields[name], key, db.realText)
    {
      FoundByFieldExactlyWhen(db, indexName, name, key, d);
    }
  }

  lemma FoundByFieldExactlyWhen(db: IndexedDatabase, indexName: string, name: string, key: string, d: string)
    requires db.Valid() && indexName in db.definitions && db.definitions[indexName] == [name]
    requires IsPlain(name) && (key == "" || key[|key| - 1] != '*')
    requires d in db.document
    ensures db.IsFound(indexName, [key], d) <==>
      && db.document[d].Some? && db.document[d].value.Object? && name in db.document[d].value.fields
      && Shows(db.document[d].value.fields[name], key, db.realText)
  {
    hide *;
    PlainNameIsAField(name);
    FoundExactlyWhen(db, indexName, [key], d);
    var doc := if db.document[d].Some? then db.document[d].value else Object(map[]);
    FieldAnswersExactly(name, doc, key, db.realText, db.glob);
    assert [key][0] == key && [name][0] == name;
    assert db.document[d].Some? ==> (db.IsFound(indexName, [key], d) <==> HasAnswer(name, doc, key, db.realText, db.glob));
  }

  lemma FieldAnswersExactly(name: string, doc: Json, key: string, realText: real -> string, glob: Glob)
    requires Parse(name) == Ok(Field([name])) && (key == "" || key[|key| - 1] != '*')
    ensures HasAnswer(name, doc, key, realText, glob) <==>
      doc.Object? && name in doc.fields && Shows(doc.fields[name], key, realText)
  {
    hide Parse, Get, Answers, Shows, IsValueOf;
    forall v ensures v in Get(Field([name]), doc) <==>
      doc.Object? && name in doc.fields && IsValueOf(v, doc.fields[name])
    {
      PlainFieldHasExactly(name, doc, v);
    }
    if doc.Object? && name in doc.fields {
      ShowsAnAnswer(doc.fields[name], key, realText, glob);
    }
  }

  lemma ShowsAnAnswer(value: Json, key: string, realText: real -> string, glob: Glob)
    requires key == "" || key[|key| - 1] != '*'
    ensures Shows(value, key, realText) <==>
      exists v :: IsValueOf(v, value) && Answers(v, key, realText, glob)
  {
    if value.Array? {
      forall v <- value.items ensures !v.Array? && Shows(v, key, realText) <==> Answers(v, key, realText, glob) {}
    } else {
      assert Shows(value, key, realText) <==> Answers(value, key, realText, glob);
      assert value.Null? || value.Object? || IsValueOf(value, value);
    }
  }

  /** From the definition of an index to the answer of a query. */
  method IndexThenPutThenGet(realText: real -> string, glob: Glob, name: string, content: Json, key: string)
    returns (r: Result<set<string>>)
    requires IsPlain(name) && (key == "" || key[|key| - 1] != '*')
    ensures r == Ok(if content.Object? && name in content.fields && Shows(content.fields[name], key, realText) then {"d"}
                    else {})
  {
    hide IsPlain, Parse, Shows;
    PlainNameIsAField(name);
    var db := new IndexedDatabase(realText, glob);
    var created := db.CreateIndex("i", [name]);
    db.PutAndUpdateIndexes("d", Some(content));
    assert db.document.Keys == {"d"} && db.document["d"] == Some(content);
    r := GetByField(db, "i", name, key);
    var found := content.Object? && name in content.fields && Shows(content.fields[name], key, realText);
    assert "d" in r.value <==> found;
    assert r.value == if found then {"d"} else {};
  }
}
