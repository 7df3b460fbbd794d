/** Which texts are index expressions, and which are refused. */
module ParserLaws {
  import opened Getters
  import opened QueryParser
  import opened Texts
  import opened Wrappers

  // ---------- the text of an expression ----------

  lemma PrintedOperations(g: Getter)
    ensures Print(Lower(g)) == "lower(" + Print(g) + ")"
    ensures Print(Bool(g)) == "bool(" + Print(g) + ")"
  {
    var text := Print(g);
    assert Print(Lower(g)) == Call("lower", text) && Print(Bool(g)) == Call("bool", text);
    hide *;
    CallText("lower", text);
    CallText("bool", text);
  }

  lemma PrintedIsNull(g: Getter)
    ensures Print(IsNull(g)) == "is_null(" + Print(g) + ")"
  {
    CallText("is_null", Print(g));
  }

  lemma PrintedSplitWords(g: Getter)
    ensures Print(SplitWords(g)) == "split_words(" + Print(g) + ")"
  {
    CallText("split_words", Print(g));
  }

  lemma CallText(name: string, args: string)
    ensures Call(name, args) == name + "(" + args + ")"
  {}

  lemma PrintedNumber(g: Getter, n: int)
    ensures Print(Number(g, n)) == "number(" + Print(g) + ", " + IntToString(n) + ")"
  {
    var args := Print(g) + "," + (" " + IntToString(n));
    assert Print(Number(g, n)) == Call("number", args);
    hide *;
    CallText("number", args);
    TwoTexts("number(", Print(g), IntToString(n) + ")");
    assert "number" + "(" == "number(";
    assert "number(" + args + ")" == "number(" + (Print(g) + "," + (" " + (IntToString(n) + ")")));
    assert "number(" + Print(g) + ", " + (IntToString(n) + ")") == "number(" + Print(g) + ", " + IntToString(n) + ")";
  }

  lemma TwoTexts(front: string, a: string, b: string)
    ensures front + (a + "," + (" " + b)) == front + a + ", " + b
  {}

  lemma PrintedCombine(g: Getter)
    ensures Print(Combine([g])) == "combine(" + Print(g) + ")"
  {
    CallText("combine", Print(g));
  }

  /** One more expression goes in front of the others, with a comma and a blank. */
  lemma PrintedCombineMore(g: Getter, gs: seq<Getter>)
    requires gs != []
    ensures exists others ::
      && Print(Combine(gs)) == "combine(" + others
      && Print(Combine([g] + gs)) == "combine(" + Print(g) + ", " + others
  {
    var all := [g] + gs;
    assert all[1..] == gs;
    var first, last := Print(g), PrintEach(gs);
    assert PrintEach(all) == first + "," + (" " + last);
    assert Print(Combine(gs)) == Call("combine", last);
    assert Print(Combine(all)) == Call("combine", first + "," + (" " + last));
    hide *;
    CallText("combine", last);
    CallText("combine", first + "," + (" " + last));
    var others := last + ")";
    TwoTexts("combine(", first, others);
    assert "combine" + "(" == "combine(";
    assert "combine(" + last + ")" == "combine(" + others;
    assert "combine(" + (first + "," + (" " + last)) + ")" == "combine(" + (first + "," + (" " + others));
  }

  /** The names of a dotted path stand between dots. */
  lemma PrintedField(name: string, path: seq<string>)
    ensures Print(Field([name])) == name
    ensures path != [] ==> Print(Field([name] + path)) == name + "." + Print(Field(path))
  {
    assert ([name] + path)[1..] == path;
  }

  // ---------- what may follow ----------

  /** Behind a complete operation there may be blanks and nothing else. */
  lemma NothingFollowsAnOperation(g: Getter, more: string)
    requires WellFormed(g) && !g.Field? && exists c <- more :: c !in [' ', '\t', '\n', '\r', '\U{0b}', '\U{0c}']
    ensures Parse(Print(g) + more) == Err(IndexDefinitionParseError)
  {
    hide WellFormed, TokensOf, Strip, ReadTerm, ToGetter, Tokens, Print;
    StripKeepsTokens(Print(g) + more);
    OperationAndMore(g, more);
    PrintedTokens(g);
    MoreHasATermOrDelimiter(more);
    TokensAreRead(g, TokensOf(more));
    TermIsGetter(g);
  }

  lemma OperationAndMore(g: Getter, more: string)
    requires !g.Field?
    ensures TokensOf(Print(g) + more) == TokensOf(Print(g)) + TokensOf(more)
  {
    hide TokensOf, IntToString;
    var front := OperationText(g);
    assert Print(g) + more == front + ")" + more && Print(g) == front + ")" + "";
    TokensAround(front, ')', more);
    TokensAround(front, ')', "");
    NoTokens();
  }

  lemma OperationText(g: Getter) returns (front: string)
    requires !g.Field?
    ensures Print(g) == front + ")"
  {
    var name, args :| Print(g) == Call(name, args);
    CallText(name, args);
    front := name + "(" + args;
  }

  lemma MoreHasATermOrDelimiter(more: string)
    requires exists c <- more :: c !in [' ', '\t', '\n', '\r', '\U{0b}', '\U{0c}']
    ensures TokensOf(more) != []
  {
    TokensStep(more);
    hide TokensOf;
    if FindDelimiter(more) == |more| && Strip(more) == "" {
      StripOfNoBlank(more);
    }
  }

  lemma {:induction false} StripOfNoBlank(s: string)
    requires exists c <- s :: c !in [' ', '\t', '\n', '\r', '\U{0b}', '\U{0c}']
    ensures Strip(s) != ""
  {
    if IsBlank(s[0]) {
      assert s == [s[0]] + s[1..];
      StripOfNoBlank(s[1..]);
    } else {
      StripRightKeepsFirst(s);
    }
  }

  lemma {:induction false} StripRightKeepsFirst(s: string)
    requires s != "" && !IsBlank(s[0])
    ensures StripRight(s) != ""
  {
    if IsBlank(s[|s| - 1]) {
      StripRightKeepsFirst(s[..|s| - 1]);
    }
  }

  /** No comma and no closing bracket may follow an expression, whatever it is and whatever comes then. */
  lemma NoCommaFollows(g: Getter, d: char, rest: string)
    requires WellFormed(g) && d in [',', ')']
    ensures Parse(Print(g) + [d] + rest) == Err(IndexDefinitionParseError)
  {
    hide WellFormed, TokensOf, Strip, ReadTerm, ToGetter, Tokens, Print;
    StripKeepsTokens(Print(g) + [d] + rest);
    TokensAround(Print(g), d, rest);
    PrintedTokens(g);
    TokensAreRead(g, [[d]] + TokensOf(rest));
    TermIsGetter(g);
  }

  // ---------- names that are no operations ----------

  /** Only six names can be applied to arguments. */
  lemma UnknownOperationIsRefused(name: string, rest: string)
    requires IsName(name) && name !in ["lower", "number", "bool", "split_words", "is_null", "combine"]
    ensures Parse(name + "(" + rest) == Err(IndexDefinitionParseError)
  {
    hide TokensOf, Strip, IsName;
    StripKeepsTokens(name + "(" + rest);
    TokensAround(name, '(', rest);
    NameIsOneToken(name);
    NamesAreNoDelimiters(name);
    var ts := [name] + (["("] + TokensOf(rest));
    assert ts[0] == name && ts[1] == "(";
  }

  /** A field's name does not end in a dot. */
  lemma TrailingDotIsRefused(name: string)
    requires IsName(name + ".")
    ensures Parse(name + ".") == Err(IndexDefinitionParseError)
  {
    hide TokensOf, Strip;
    var text := name + ".";
    StripKeepsTokens(text);
    NameIsOneToken(text);
    NamesAreNoDelimiters(text);
    hide IsName;
    ReadName(text, []);
    assert [text] + [] == [text];
  }

  // ---------- arguments that do not suit ----------

  /** Two expressions are too many for every operation but combine. */
  lemma SecondArgumentIsRefused(name: string, a: Getter, b: Getter)
    requires name in ["lower", "bool", "split_words", "is_null"] && WellFormed(a) && WellFormed(b)
    ensures Parse(name + "(" + (Print(a) + ", " + Print(b)) + ")") == Err(TypeError)
  {
    hide WellFormed, TokensOf, Strip, Tokens, Print, ConvertArgs, ReadArgs;
    CallOnTwo(name, a, b);
    TwoAreRead(a, b);
    TwoArguments(name, a, b);
    var ts := CallTokens(name, Tokens(a) + ([","] + Tokens(b)));
    assert ts[0] == name && ts[1] == "(" && ts[2..] == (Tokens(a) + ([","] + Tokens(b))) + [")"];
  }

  lemma TwoAreRead(a: Getter, b: Getter)
    requires WellFormed(a) && WellFormed(b)
    ensures ReadArgs((Tokens(a) + ([","] + Tokens(b))) + [")"]) == Ok(Parsed([TermOf(a), TermOf(b)], []))
  {
    hide WellFormed, Tokens, TermOf, ReadTerm, ReadArgs;
    var more := Tokens(b) + ([")"] + []);
    TokensAreRead(b, [")"] + []);
    ReadOneArg(Tokens(b), TermOf(b), []);
    TokensAreRead(a, [","] + more);
    ReadMoreArgs(Tokens(a), TermOf(a), more, [TermOf(b)], []);
    assert (Tokens(a) + ([","] + Tokens(b))) + [")"] == Tokens(a) + ([","] + more);
    assert [TermOf(a)] + [TermOf(b)] == [TermOf(a), TermOf(b)];
  }

  lemma TwoArguments(name: string, a: Getter, b: Getter)
    requires WellFormed(a) && WellFormed(b) && name != "number"
    ensures ConvertArgs(name, [TermOf(a), TermOf(b)]) == Ok([Expression(a), Expression(b)])
  {
    hide WellFormed, ToGetter, TermOf;
    TermIsGetter(a);
    TermIsGetter(b);
    OneArgument(name, a);
    var ts := [TermOf(a), TermOf(b)];
    assert ts[..1] == [TermOf(a)];
    assert [Expression(a)] + [Expression(b)] == [Expression(a), Expression(b)];
  }

  /** The width of a number is neither a name nor an operation. */
  lemma WidthIsAnInteger(a: Getter, b: Getter)
    requires WellFormed(a) && WellFormed(b)
    requires b.Field? ==> exists c <- Print(b) :: c !in "+-0123456789"
    ensures Parse("number" + "(" + (Print(a) + ", " + Print(b)) + ")") ==
      Err(if b.Field? then IndexDefinitionParseError else TypeError)
  {
    hide WellFormed, TokensOf, Strip, Tokens, Print, ConvertArgs, ReadArgs;
    CallOnTwo("number", a, b);
    TwoAreRead(a, b);
    NoWidth(a, b);
    var ts := CallTokens("number", Tokens(a) + ([","] + Tokens(b)));
    assert ts[0] == "number" && ts[1] == "(" && ts[2..] == (Tokens(a) + ([","] + Tokens(b))) + [")"];
  }

  lemma CallOnTwo(name: string, a: Getter, b: Getter)
    requires name in ["lower", "number", "bool", "split_words", "is_null"] && WellFormed(a) && WellFormed(b)
    ensures TokensOf(Strip(name + "(" + (Print(a) + ", " + Print(b)) + ")")) ==
      CallTokens(name, Tokens(a) + ([","] + Tokens(b)))
  {
    hide WellFormed, TokensOf, Strip, Tokens, Print;
    var args := Print(a) + ", " + Print(b);
    CallText(name, args);
    StripKeepsTokens(Call(name, args));
    CallPrints(name, args);
    assert args == Print(a) + "," + (" " + Print(b));
    CommaIsToken(Print(a), Print(b));
    PrintedTokens(a);
    PrintedTokens(b);
  }

  lemma NoWidth(a: Getter, b: Getter)
    requires WellFormed(a) && WellFormed(b)
    requires b.Field? ==> exists c <- Print(b) :: c !in "+-0123456789"
    ensures ConvertArgs("number", [TermOf(a), TermOf(b)]) ==
      Err(if b.Field? then IndexDefinitionParseError else TypeError)
  {
    hide ToGetter, Strip;
    TermIsGetter(a);
    var ts := [TermOf(a), TermOf(b)];
    assert ts[..1] == [TermOf(a)] && ts[..1][..0] == [];
    assert ConvertArgs("number", []) == Ok([]);
    assert [] + [Expression(a)] == [Expression(a)];
    assert ConvertArgs("number", ts[..1]) == Ok([Expression(a)]);
    if b.Field? {
      StripStripped(Print(b));
      NotANumber(Print(b));
    }
  }

  lemma NotANumber(s: string)
    requires exists c <- s :: c !in "+-0123456789"
    ensures ParseSigned(s) == None
  {
    var c :| c in s && c !in "+-0123456789";
    DigitsAreListed();
    assert !IsDigit(c);
    assert s[0] in "+-" ==> c in s[1..];
  }

  lemma DigitsAreListed()
    ensures forall c: char :: '0' <= c <= '9' ==> c in "+-0123456789"
  {
    forall c: char | '0' <= c <= '9' ensures c in "+-0123456789" {
      assert "+-0123456789"[2 + (c - '0') as int] == c;
    }
  }

  /** An operation without arguments. */
  lemma NoArgumentsAreRefused(name: string, rest: string)
    requires IsName(name)
    ensures Parse(name + "(" + (")" + rest)) == Err(IndexDefinitionParseError)
  {
    hide TokensOf, Strip, IsName, BuildOp;
    var text, more := name + "(" + (")" + rest), TokensOf(rest);
    StripKeepsTokens(text);
    TokensAround(name, '(', ")" + rest);
    NameIsOneToken(name);
    NamesAreNoDelimiters(name);
    assert ")" + rest == "" + ")" + rest;
    TokensAround("", ')', rest);
    NoTokens();
    var ts := [name] + (["("] + ([")"] + more));
    assert TokensOf(Strip(text)) == ts by {
      assert [] + ([")"] + more) == [")"] + more;
    }
    assert ts[0] == name && ts[1] == "(" && ts[2..] == [")"] + more;
    assert ReadArgs(ts[2..]) == Err(IndexDefinitionParseError);
    assert ReadTerm(ts) == Err(IndexDefinitionParseError);
  }
}
