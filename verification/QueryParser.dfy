/** Index expressions: tokens, the recursive descent parser, and printing them back. */
module QueryParser {
  import opened Getters
  import opened Texts
  import opened Wrappers

  // ---------- tokens ----------

  predicate IsDelimiter(c: char) {
    c in "(),"
  }

  function FindDelimiter(s: string): (i: nat)
    ensures i <= |s|
    ensures forall k :: 0 <= k < i ==> !IsDelimiter(s[k])
    ensures i < |s| ==> IsDelimiter(s[i])
  {
    if s == "" then 0 else if IsDelimiter(s[0]) then 0 else FindDelimiter(s[1..]) + 1
  }

  /** The text between two delimiters, without the blanks around it, if anything is left. */
  function Piece(s: string): seq<string> {
    if Strip(s) == "" then [] else [Strip(s)]
  }

  function TokensOf(s: string): seq<string> {
    if s == "" then []
    else
      var i := FindDelimiter(s);
      if i == |s| then Piece(s)
      else Piece(s[..i]) + ([[s[i]]] + TokensOf(s[i + 1..]))
  }

  // ---------- terms ----------

  /** A name is not turned into a field before it is known where it stands. */
  datatype Term = Name(s: string) | Op(getter: Getter)

  datatype Parsed<+T> = Parsed(value: T, rest: seq<string>)

  /** A converted argument: an expression or a number. */
  datatype Arg = Expression(getter: Getter) | Width(n: int)

  predicate IsOperation(name: string) {
    name in ["split_words", "lower", "number", "bool", "is_null", "combine"]
  }

  function ToGetter(t: Term): Result<Getter> {
    match t
    case Op(g) => Ok(g)
    case Name(s) =>
      if s != "" && s[|s| - 1] == '.' then Err(IndexDefinitionParseError) else Ok(Field(Split(s, '.')))
  }

  /** Only every second argument of number is an integer; an expression cannot be made one. */
  function ConvertArg(name: string, i: nat, t: Term): Result<Arg> {
    if name == "number" && i % 2 == 1 then
      match t
      case Op(_) => Err(TypeError)
      case Name(s) =>
        var n := ParseInt(s);
        if n.None? then Err(IndexDefinitionParseError) else Ok(Width(n.value))
    else
      var g := ToGetter(t);
      if g.Err? then Err(g.error) else Ok(Expression(g.value))
  }

  function ConvertArgs(name: string, terms: seq<Term>): Result<seq<Arg>> {
    if terms == [] then Ok([])
    else
      var n := |terms| - 1;
      var before := ConvertArgs(name, terms[..n]);
      if before.Err? then before
      else
        var last := ConvertArg(name, n, terms[n]);
        if last.Err? then Err(last.error) else Ok(before.value + [last.value])
  }

  function Expressions(args: seq<Arg>): seq<Getter> {
    if args == [] then []
    else (if args[0].Expression? then [args[0].getter] else []) + Expressions(args[1..])
  }

  /** Every operation but combine takes a fixed number of arguments. */
  function Construct(name: string, args: seq<Arg>): Result<Getter> {
    if name == "combine" then Ok(Combine(Expressions(args)))
    else if name == "number" then
      if |args| == 2 && args[0].Expression? && args[1].Width? then Ok(Number(args[0].getter, args[1].n)) else Err(TypeError)
    else if |args| != 1 || !args[0].Expression? then Err(TypeError)
    else if name == "lower" then Ok(Lower(args[0].getter))
    else if name == "bool" then Ok(Bool(args[0].getter))
    else if name == "split_words" then Ok(SplitWords(args[0].getter))
    else Ok(IsNull(args[0].getter))
  }

  function BuildOp(name: string, terms: seq<Term>): Result<Getter> {
    var args := ConvertArgs(name, terms);
    if args.Err? then Err(args.error) else Construct(name, args.value)
  }

  // ---------- the grammar ----------

  function ReadTerm(ts: seq<string>): (r: Result<Parsed<Term>>)
    ensures r.Ok? ==> |r.value.rest| < |ts|
    decreases |ts|, 0
  {
    if ts == [] || ts[0] in [",", ")", "("] then Err(IndexDefinitionParseError)
    else if |ts| > 1 && ts[1] == "(" then
      if !IsOperation(ts[0]) then Err(IndexDefinitionParseError)
      else
        var args := ReadArgs(ts[2..]);
        if args.Err? then Err(args.error)
        else
          var op := BuildOp(ts[0], args.value.value);
          if op.Err? then Err(op.error) else Ok(Parsed(Op(op.value), args.value.rest))
    else Ok(Parsed(Name(ts[0]), ts[1..]))
  }

  /** The arguments after an opening bracket, and what follows the closing one. */
  function ReadArgs(ts: seq<string>): (r: Result<Parsed<seq<Term>>>)
    ensures r.Ok? ==> |r.value.rest| < |ts|
    decreases |ts|, 1
  {
    var first := ReadTerm(ts);
    if first.Err? then Err(first.error)
    else
      var rest := first.value.rest;
      if rest == [] then Err(IndexDefinitionParseError)
      else if rest[0] == ")" then Ok(Parsed([first.value.value], rest[1..]))
      else if rest[0] != "," then Err(IndexDefinitionParseError)
      else
        var more := ReadArgs(rest[1..]);
        if more.Err? then Err(more.error) else Ok(Parsed([first.value.value] + more.value.value, more.value.rest))
  }

  function Parse(expression: string): Result<Getter> {
    var term := ReadTerm(TokensOf(Strip(expression)));
    if term.Err? then Err(term.error)
    else
      var g := ToGetter(term.value.value);
      if g.Err? then g else if term.value.rest != [] then Err(IndexDefinitionParseError) else g
  }

  // ---------- the parser object ----------

  class Parser {
    var tokens: seq<string>

    constructor ()
      ensures tokens == []
    {
      tokens := [];
    }

    method SetExpression(text: string)
      modifies this
      ensures tokens == TokensOf(Strip(text))
    {
      hide TokensOf, Strip, FindDelimiter, IsDelimiter;
      tokens := [];
      var expression := Strip(text);
      ghost var all := TokensOf(expression);
      NoTokens();
      assert [] + all == all;
      while expression != ""
        invariant tokens + TokensOf(expression) == all
        decreases |expression|
      {
        ghost var before, was := tokens, expression;
        var idx := FindDelimiter(expression);
        var found: seq<string>;
        if idx < |expression| {
          if idx == 0 {
            DelimiterFirst(expression);
            found := [expression[..1]];
            expression := expression[1..];
          } else {
            PieceFirst(expression);
            found := Piece(expression[..idx]);
            expression := expression[idx..];
          }
        } else {
          PieceLast(expression);
          found := Piece(expression);
          expression := "";
        }
        assert TokensOf(was) == found + TokensOf(expression);
        assert before + (found + TokensOf(expression)) == (before + found) + TokensOf(expression);
        tokens := tokens + found;
      }
    }

    method GetToken() returns (t: Option<string>)
      modifies this
      ensures old(tokens) == [] ==> t == None && tokens == []
      ensures old(tokens) != [] ==> t == Some(old(tokens)[0]) && tokens == old(tokens)[1..]
    {
      if tokens == [] {
        return None;
      }
      t := Some(tokens[0]);
      tokens := tokens[1..];
    }

    function PeekToken(): Option<string>
      reads this
    {
      if tokens == [] then None else Some(tokens[0])
    }

    method ParseTerm() returns (r: Result<Term>)
      modifies this
      ensures var spec := ReadTerm(old(tokens));
        if spec.Err? then r == Err(spec.error) else r == Ok(spec.value.value) && tokens == spec.value.rest
      decreases |tokens|, 1
    {
      var term := GetToken();
      if term == None || term.value in [",", ")", "("] {
        return Err(IndexDefinitionParseError);
      }
      if PeekToken() == Some("(") {
        r := ParseOp(term.value);
        return r;
      }
      return Ok(Name(term.value));
    }

    method ParseOp(name: string) returns (r: Result<Term>)
      requires tokens != [] && tokens[0] == "("
      modifies this
      ensures IsOperation(name) ==> var args := ReadArgs(old(tokens)[1..]);
        if args.Err? then r == Err(args.error)
        else
          var op := BuildOp(name, args.value.value);
          if op.Err? then r == Err(op.error) else r == Ok(Op(op.value)) && tokens == args.value.rest
      ensures !IsOperation(name) ==> r == Err(IndexDefinitionParseError)
      decreases |tokens|, 0
    {
      var bracket := GetToken();
      if !IsOperation(name) {
        return Err(IndexDefinitionParseError);
      }
      var args := [];
      ghost var spec := ReadArgs(tokens);
      NoArgsYet(spec);
      while true
        invariant |tokens| < old(|tokens|)
        invariant spec == AfterArgs(args, ReadArgs(tokens))
        decreases |tokens|
      {
        hide BuildOp;
        AfterMore(args, tokens);
        var arg := ParseTerm();
        if arg.Err? {
          return Err(arg.error);
        }
        args := args + [arg.value];
        var sep := GetToken();
        if sep == Some(")") {
          break;
        }
        if sep != Some(",") {
          return Err(IndexDefinitionParseError);
        }
      }
      var op := BuildOp(name, args);
      if op.Err? {
        return Err(op.error);
      }
      return Ok(Op(op.value));
    }

    method ParseExpression(expression: string) returns (r: Result<Getter>)
      modifies this
      ensures r == Parse(expression)
    {
      SetExpression(expression);
      var term := ParseTerm();
      if term.Err? {
        return Err(term.error);
      }
      r := ToGetter(term.value);
      if r.Err? {
        return r;
      }
      if PeekToken().Some? {
        return Err(IndexDefinitionParseError);
      }
    }
  }

  function AfterArgs(args: seq<Term>, more: Result<Parsed<seq<Term>>>): Result<Parsed<seq<Term>>> {
    if more.Err? then more else Ok(Parsed(args + more.value.value, more.value.rest))
  }

  lemma NoArgsYet(more: Result<Parsed<seq<Term>>>)
    ensures AfterArgs([], more) == more
  {
    assert more.Ok? ==> [] + more.value.value == more.value.value;
  }

  lemma AfterMore(args: seq<Term>, ts: seq<string>)
    ensures var first := ReadTerm(ts);
      AfterArgs(args, ReadArgs(ts)) ==
        if first.Err? then Err(first.error)
        else
          var rest := first.value.rest;
          if rest == [] then Err(IndexDefinitionParseError)
          else if rest[0] == ")" then Ok(Parsed(args + [first.value.value], rest[1..]))
          else if rest[0] != "," then Err(IndexDefinitionParseError)
          else AfterArgs(args + [first.value.value], ReadArgs(rest[1..]))
  {
    hide ReadTerm;
    var more := ReadArgs(ts);
    if more.Ok? {
      var first, others := [ReadTerm(ts).value.value], more.value.value[1..];
      assert args + (first + others) == (args + first) + others;
    }
  }

  lemma DelimiterFirst(s: string)
    requires s != "" && IsDelimiter(s[0])
    ensures TokensOf(s) == [s[..1]] + TokensOf(s[1..])
  {
    assert Piece("") == [];
    assert s[..0] == "" && s[..1] == [s[0]];
  }

  lemma NoTokens()
    ensures TokensOf("") == []
  {}

  lemma PieceLast(s: string)
    requires s != "" && FindDelimiter(s) == |s|
    ensures TokensOf(s) == Piece(s) + TokensOf("")
  {}

  lemma PieceFirst(s: string)
    requires 0 < FindDelimiter(s) < |s|
    ensures var i := FindDelimiter(s); TokensOf(s) == Piece(s[..i]) + TokensOf(s[i..])
  {
    var i := FindDelimiter(s);
    DelimiterFirst(s[i..]);
    assert s[i..][1..] == s[i + 1..] && s[i..][..1] == [s[i]];
  }

  // ---------- blanks do not matter ----------

  lemma TokensStep(s: string)
    ensures var i := FindDelimiter(s);
      if i == |s| then TokensOf(s) == Piece(s)
      else TokensOf(s) == Piece(s[..i]) + ([[s[i]]] + TokensOf(s[i + 1..]))
  {
    assert Piece("") == [];
  }

  lemma CutAround(a: string, d: char, b: string, i: nat)
    requires i <= |a|
    ensures var s := a + [d] + b;
      if i == |a| then s[..i] == a && s[i] == d && s[i + 1..] == b
      else s[..i] == a[..i] && s[i] == a[i] && s[i + 1..] == a[i + 1..] + [d] + b
  {}

  lemma {:induction false} TokensAround(a: string, d: char, b: string)
    requires IsDelimiter(d)
    ensures TokensOf(a + [d] + b) == TokensOf(a) + ([[d]] + TokensOf(b))
    decreases |a|
  {
    hide TokensOf, FindDelimiter, Piece, IsDelimiter;
    var i, s := FindDelimiter(a), a + [d] + b;
    DelimiterIsFound(a, d, b);
    CutAround(a, d, b, i);
    TokensStep(a);
    TokensStep(s);
    if i < |a| {
      TokensAround(a[i + 1..], d, b);
      var tail := [[d]] + TokensOf(b);
      assert Piece(a[..i]) + ([[a[i]]] + (TokensOf(a[i + 1..]) + tail)) ==
        (Piece(a[..i]) + ([[a[i]]] + TokensOf(a[i + 1..]))) + tail;
    }
  }

  lemma {:induction false} DelimiterIsFound(a: string, d: char, b: string)
    requires IsDelimiter(d)
    ensures FindDelimiter(a + [d] + b) == FindDelimiter(a)
  {
    if a != "" && !IsDelimiter(a[0]) {
      DelimiterIsFound(a[1..], d, b);
      assert (a + [d] + b)[1..] == a[1..] + [d] + b;
    }
  }

  lemma CutAt(s: string, i: nat)
    requires i < |s|
    ensures s == s[..i] + [s[i]] + s[i + 1..]
  {}

  lemma NoDelimiter(s: string)
    requires forall c <- s :: !IsDelimiter(c)
    ensures TokensOf(s) == Piece(s)
  {
    assert forall k :: 0 <= k < |s| ==> s[k] in s;
    TokensStep(s);
    hide TokensOf;
  }

  lemma BlankIsNoDelimiter(p: string, s: string)
    requires AllBlank(p) && forall c <- s :: !IsDelimiter(c)
    ensures forall c <- p + s :: !IsDelimiter(c)
    ensures forall c <- s + p :: !IsDelimiter(c)
  {}

  lemma BlanksBefore(p: string, s: string)
    requires AllBlank(p)
    ensures TokensOf(p + s) == TokensOf(s)
  {
    hide TokensOf, Strip, IsBlank, IsDelimiter;
    var i := FindDelimiter(s);
    if i == |s| {
      assert forall c <- s :: !IsDelimiter(c);
      BlankIsNoDelimiter(p, s);
      NoDelimiter(p + s);
      NoDelimiter(s);
      StripDropsLeft(p, s);
    } else {
      CutAt(s, i);
      var a, b := s[..i], s[i + 1..];
      assert forall c <- a :: !IsDelimiter(c);
      assert p + s == (p + a) + [s[i]] + b;
      TokensAround(p + a, s[i], b);
      TokensAround(a, s[i], b);
      BlankIsNoDelimiter(p, a);
      NoDelimiter(p + a);
      NoDelimiter(a);
      StripDropsLeft(p, a);
    }
  }

  lemma {:induction false} BlanksAfter(s: string, p: string)
    requires AllBlank(p)
    ensures TokensOf(s + p) == TokensOf(s)
    decreases |s|
  {
    hide TokensOf, Strip, IsBlank, IsDelimiter;
    var i := FindDelimiter(s);
    if i == |s| {
      assert forall c <- s :: !IsDelimiter(c);
      BlankIsNoDelimiter(p, s);
      NoDelimiter(s + p);
      NoDelimiter(s);
      StripDropsRight(s, p);
    } else {
      CutAt(s, i);
      var a, b := s[..i], s[i + 1..];
      assert s + p == a + [s[i]] + (b + p);
      TokensAround(a, s[i], b + p);
      TokensAround(a, s[i], b);
      BlanksAfter(b, p);
    }
  }

  lemma {:induction false} StripKeepsTokens(s: string)
    ensures TokensOf(Strip(s)) == TokensOf(s)
    decreases |s|
  {
    hide TokensOf;
    if s != "" && IsBlank(s[0]) {
      assert s == [s[0]] + s[1..];
      BlanksBefore([s[0]], s[1..]);
      StripKeepsTokens(s[1..]);
    } else {
      StripRightKeepsTokens(s);
    }
  }

  lemma {:induction false} StripRightKeepsTokens(s: string)
    ensures TokensOf(StripRight(s)) == TokensOf(s)
  {
    hide TokensOf;
    if s != "" && IsBlank(s[|s| - 1]) {
      var init, last := s[..|s| - 1], [s[|s| - 1]];
      assert s == init + last;
      BlanksAfter(init, last);
      StripRightKeepsTokens(init);
    }
  }

  /** Blanks around a delimiter change nothing, whatever the expression. */
  lemma BlanksAroundDelimiters(a: string, p: string, d: char, q: string, b: string)
    requires IsDelimiter(d) && AllBlank(p) && AllBlank(q)
    ensures Parse(a + p + [d] + q + b) == Parse(a + [d] + b)
  {
    hide TokensOf, Strip, AllBlank, IsDelimiter, ReadTerm, ToGetter;
    var spaced, tight := a + p + [d] + q + b, a + [d] + b;
    assert spaced == (a + p) + [d] + (q + b);
    TokensAround(a + p, d, q + b);
    TokensAround(a, d, b);
    BlanksAfter(a, p);
    BlanksBefore(q, b);
    StripKeepsTokens(spaced);
    StripKeepsTokens(tight);
  }

  // ---------- printing ----------

  function Print(g: Getter): string
    decreases g
  {
    match g
    case Field(path) => if path == [] then "" else JoinText(path, '.')
    case Lower(inner) => Call("lower", Print(inner))
    case Number(inner, padding) => Call("number", Print(inner) + "," + (" " + IntToString(padding)))
    case Bool(inner) => Call("bool", Print(inner))
    case SplitWords(inner) => Call("split_words", Print(inner))
    case IsNull(inner) => Call("is_null", Print(inner))
    case Combine(inners) => Call("combine", PrintEach(inners))
  }

  function Call(name: string, args: string): string {
    name + "(" + (args + ")" + "")
  }

  function PrintEach(gs: seq<Getter>): string
    decreases gs
  {
    if gs == [] then ""
    else if |gs| == 1 then Print(gs[0])
    else Print(gs[0]) + "," + (" " + PrintEach(gs[1..]))
  }

  /** A token that is not a delimiter. */
  predicate IsName(s: string) {
    s != "" && Stripped(s) && forall c <- s :: !IsDelimiter(c)
  }

  predicate IsFieldName(s: string) {
    IsName(s) && s[|s| - 1] != '.'
  }

  /** The expressions a text can stand for. */
  ghost predicate WellFormed(g: Getter)
    decreases g
  {
    match g
    case Field(path) => path != [] && (forall part <- path :: '.' !in part) && IsFieldName(JoinText(path, '.'))
    case Lower(inner) => WellFormed(inner)
    case Number(inner, _) => WellFormed(inner)
    case Bool(inner) => WellFormed(inner)
    case SplitWords(inner) => WellFormed(inner)
    case IsNull(inner) => WellFormed(inner)
    case Combine(inners) => inners != [] && AllWellFormed(inners)
  }

  ghost predicate AllWellFormed(gs: seq<Getter>)
    decreases gs
  {
    gs == [] || (WellFormed(gs[0]) && AllWellFormed(gs[1..]))
  }

  function CallTokens(name: string, args: seq<string>): seq<string> {
    [name, "("] + args + [")"]
  }

  function Tokens(g: Getter): seq<string>
    decreases g
  {
    match g
    case Field(path) => [Print(g)]
    case Lower(inner) => CallTokens("lower", Tokens(inner))
    case Number(inner, padding) => CallTokens("number", Tokens(inner) + [",", IntToString(padding)])
    case Bool(inner) => CallTokens("bool", Tokens(inner))
    case SplitWords(inner) => CallTokens("split_words", Tokens(inner))
    case IsNull(inner) => CallTokens("is_null", Tokens(inner))
    case Combine(inners) => CallTokens("combine", TokensOfEach(inners))
  }

  function TokensOfEach(gs: seq<Getter>): seq<string>
    decreases gs
  {
    if gs == [] then []
    else if |gs| == 1 then Tokens(gs[0])
    else Tokens(gs[0]) + ([","] + TokensOfEach(gs[1..]))
  }

  // ---------- the tokens of a printed expression ----------

  lemma NameIsOneToken(s: string)
    requires IsName(s)
    ensures TokensOf(s) == [s]
  {
    NoDelimiter(s);
    StripStripped(s);
    hide TokensOf, Strip;
  }

  lemma CallIsTokens(name: string, args: string)
    requires IsName(name)
    ensures TokensOf(Call(name, args)) == CallTokens(name, TokensOf(args))
  {
    hide TokensOf, IsName;
    TokensAround(name, '(', args + ")" + "");
    TokensAround(args, ')', "");
    NameIsOneToken(name);
    NoTokens();
  }

  lemma CommaIsToken(a: string, b: string)
    ensures TokensOf(a + "," + (" " + b)) == TokensOf(a) + ([","] + TokensOf(b))
  {
    hide TokensOf;
    TokensAround(a, ',', " " + b);
    BlanksBefore(" ", b);
  }

  lemma NumberIsName(n: int)
    ensures IsName(IntToString(n))
  {
    var digits := Decimal(if n < 0 then -n else n);
    UnsignedIsRead(digits);
    NegativeIsRead(digits);
    hide Decimal, Stripped, ParseSigned;
    forall c <- IntToString(n) ensures !IsDelimiter(c) {
      assert c == '-' || c in digits;
    }
  }

  lemma OperationsAreNames(name: string)
    requires IsOperation(name)
    ensures IsName(name) && name !in [",", ")", "("]
  {}

  lemma {:induction false} PrintedTokens(g: Getter)
    requires WellFormed(g)
    ensures TokensOf(Print(g)) == Tokens(g)
    decreases g
  {
    hide TokensOf, IsName, IsOperation, Call, CallTokens, IntToString;
    match g
    case Field(path) => NameIsOneToken(Print(g));
    case Lower(inner) => PrintedTokens(inner); CallPrints("lower", Print(inner));
    case Number(inner, padding) =>
      PrintedTokens(inner);
      NumberIsName(padding);
      NameIsOneToken(IntToString(padding));
      CommaIsToken(Print(inner), IntToString(padding));
      assert [","] + [IntToString(padding)] == [",", IntToString(padding)];
      CallPrints("number", Print(inner) + "," + (" " + IntToString(padding)));
    case Bool(inner) => PrintedTokens(inner); CallPrints("bool", Print(inner));
    case SplitWords(inner) => PrintedTokens(inner); CallPrints("split_words", Print(inner));
    case IsNull(inner) => PrintedTokens(inner); CallPrints("is_null", Print(inner));
    case Combine(inners) => PrintedTokensOfEach(inners); CallPrints("combine", PrintEach(inners));
  }

  lemma CallPrints(name: string, args: string)
    requires name in ["split_words", "lower", "number", "bool", "is_null", "combine"]
    ensures TokensOf(Call(name, args)) == CallTokens(name, TokensOf(args))
  {
    assert IsOperation(name);
    hide IsName;
    OperationsAreNames(name);
    CallIsTokens(name, args);
  }

  lemma {:induction false} PrintedTokensOfEach(gs: seq<Getter>)
    requires gs != [] && AllWellFormed(gs)
    ensures TokensOf(PrintEach(gs)) == TokensOfEach(gs)
    decreases gs
  {
    hide TokensOf;
    PrintedTokens(gs[0]);
    if |gs| > 1 {
      PrintedTokensOfEach(gs[1..]);
      CommaIsToken(Print(gs[0]), PrintEach(gs[1..]));
    }
  }

  // ---------- parsing a printed expression ----------

  ghost function TermOf(g: Getter): Term {
    if g.Field? then Name(Print(g)) else Op(g)
  }

  ghost function TermsOf(gs: seq<Getter>): seq<Term> {
    if gs == [] then [] else [TermOf(gs[0])] + TermsOf(gs[1..])
  }

  /** A term ends where no opening bracket follows. */
  predicate EndsTerm(rest: seq<string>) {
    rest == [] || rest[0] != "("
  }

  lemma TermIsGetter(g: Getter)
    requires WellFormed(g)
    ensures ToGetter(TermOf(g)) == Ok(g)
  {
    if g.Field? {
      SplitJoin(g.path, '.');
    }
  }

  lemma OneArgument(name: string, g: Getter)
    requires WellFormed(g) && name != "number"
    ensures ConvertArgs(name, [TermOf(g)]) == Ok([Expression(g)])
  {
    hide WellFormed, ToGetter, TermOf;
    TermIsGetter(g);
    assert [TermOf(g)][..0] == [];
    assert ConvertArgs(name, []) == Ok([]);
    assert [] + [Expression(g)] == [Expression(g)];
  }

  lemma NumberArguments(g: Getter, n: int)
    requires WellFormed(g)
    ensures ConvertArgs("number", [TermOf(g), Name(IntToString(n))]) == Ok([Expression(g), Width(n)])
  {
    hide WellFormed, ToGetter, TermOf, ParseInt, IntToString;
    TermIsGetter(g);
    IntRoundTrip(n);
    var ts := [TermOf(g), Name(IntToString(n))];
    assert ts[..1] == [TermOf(g)] && ts[..1][..0] == [];
    assert ConvertArgs("number", []) == Ok([]);
    assert [] + [Expression(g)] == [Expression(g)];
    assert [Expression(g)] + [Width(n)] == [Expression(g), Width(n)];
    assert ConvertArgs("number", ts[..1]) == Ok([Expression(g)]);
  }

  lemma ReadCall(name: string, args: seq<string>, terms: seq<Term>, g: Getter, rest: seq<string>)
    requires IsOperation(name) && BuildOp(name, terms) == Ok(g)
    requires ReadArgs(args + ([")"] + rest)) == Ok(Parsed(terms, rest))
    ensures ReadTerm(CallTokens(name, args) + rest) == Ok(Parsed(Op(g), rest))
  {
    OperationsAreNames(name);
    hide ReadArgs, BuildOp, IsName, IsOperation;
    var ts := CallTokens(name, args) + rest;
    assert ts[0] == name && ts[1] == "(" && ts[2..] == args + ([")"] + rest);
  }

  lemma ReadOneArg(ts: seq<string>, t: Term, rest: seq<string>)
    requires ReadTerm(ts + ([")"] + rest)) == Ok(Parsed(t, [")"] + rest))
    ensures ReadArgs(ts + ([")"] + rest)) == Ok(Parsed([t], rest))
  {
    hide ReadTerm;
    assert ([")"] + rest)[1..] == rest;
  }

  lemma ReadName(s: string, rest: seq<string>)
    requires s !in [",", ")", "("] && EndsTerm(rest)
    ensures ReadTerm([s] + rest) == Ok(Parsed(Name(s), rest))
  {
    assert ([s] + rest)[1..] == rest;
  }

  lemma NamesAreNoDelimiters(s: string)
    requires IsName(s)
    ensures s !in [",", ")", "("]
  {
    assert s[0] in s;
  }

  lemma ReadMoreArgs(ts: seq<string>, t: Term, more: seq<string>, terms: seq<Term>, rest: seq<string>)
    requires ReadTerm(ts + ([","] + more)) == Ok(Parsed(t, [","] + more))
    requires ReadArgs(more) == Ok(Parsed(terms, rest))
    ensures ReadArgs(ts + ([","] + more)) == Ok(Parsed([t] + terms, rest))
  {
    hide ReadTerm;
    assert ([","] + more)[1..] == more;
  }

  /** An operation on one expression. */
  lemma ReadUnary(name: string, inner: Getter, g: Getter, rest: seq<string>)
    requires IsOperation(name) && name != "number" && WellFormed(inner)
    requires Construct(name, [Expression(inner)]) == Ok(g)
    requires ReadTerm(Tokens(inner) + ([")"] + rest)) == Ok(Parsed(TermOf(inner), [")"] + rest))
    ensures ReadTerm(CallTokens(name, Tokens(inner)) + rest) == Ok(Parsed(Op(g), rest))
  {
    hide ReadTerm, Construct, IsOperation, WellFormed, ConvertArgs, CallTokens, Tokens;
    OneArgument(name, inner);
    ReadOneArg(Tokens(inner), TermOf(inner), rest);
    ReadCall(name, Tokens(inner), [TermOf(inner)], g, rest);
  }

  lemma ReadNumber(inner: Getter, n: int, rest: seq<string>)
    requires WellFormed(inner)
    requires var after := [","] + ([IntToString(n)] + ([")"] + rest));
      ReadTerm(Tokens(inner) + after) == Ok(Parsed(TermOf(inner), after))
    ensures ReadTerm(CallTokens("number", Tokens(inner) + [",", IntToString(n)]) + rest) ==
      Ok(Parsed(Op(Number(inner, n)), rest))
  {
    hide ReadTerm, IsName, WellFormed, ConvertArgs, CallTokens, Tokens, IntToString, TermOf;
    var text := IntToString(n);
    var last := [text] + ([")"] + rest);
    NumberIsName(n);
    NamesAreNoDelimiters(text);
    ReadName(text, [")"] + rest);
    ReadOneArg([text], Name(text), rest);
    ReadMoreArgs(Tokens(inner), TermOf(inner), last, [Name(text)], rest);
    NumberArguments(inner, n);
    assert [TermOf(inner)] + [Name(text)] == [TermOf(inner), Name(text)];
    assert (Tokens(inner) + [",", text]) + ([")"] + rest) == Tokens(inner) + ([","] + last);
    ReadCall("number", Tokens(inner) + [",", text], [TermOf(inner), Name(text)], Number(inner, n), rest);
  }

  lemma {:induction false} TokensAreRead(g: Getter, rest: seq<string>)
    requires WellFormed(g) && (g.Field? ==> EndsTerm(rest))
    ensures ReadTerm(Tokens(g) + rest) == Ok(Parsed(TermOf(g), rest))
    decreases g
  {
    hide ReadTerm, ReadArgs, CallTokens;
    match g
    case Field(path) => NamesAreNoDelimiters(Print(g)); ReadName(Print(g), rest);
    case Lower(inner) => TokensAreRead(inner, [")"] + rest); ReadUnary("lower", inner, g, rest);
    case Number(inner, n) =>
      TokensAreRead(inner, [","] + ([IntToString(n)] + ([")"] + rest)));
      ReadNumber(inner, n, rest);
    case Bool(inner) => TokensAreRead(inner, [")"] + rest); ReadUnary("bool", inner, g, rest);
    case SplitWords(inner) => TokensAreRead(inner, [")"] + rest); ReadUnary("split_words", inner, g, rest);
    case IsNull(inner) => TokensAreRead(inner, [")"] + rest); ReadUnary("is_null", inner, g, rest);
    case Combine(inners) =>
      EachIsRead(inners, rest);
      EachIsExpression(inners);
      ReadCall("combine", TokensOfEach(inners), TermsOf(inners), g, rest);
  }

  lemma {:induction false} EachIsRead(gs: seq<Getter>, rest: seq<string>)
    requires gs != [] && AllWellFormed(gs)
    ensures ReadArgs(TokensOfEach(gs) + ([")"] + rest)) == Ok(Parsed(TermsOf(gs), rest))
    decreases gs
  {
    hide ReadTerm, ReadArgs, WellFormed, TermOf, Tokens;
    if |gs| == 1 {
      TokensAreRead(gs[0], [")"] + rest);
      ReadOneArg(Tokens(gs[0]), TermOf(gs[0]), rest);
      assert TermsOf(gs) == [TermOf(gs[0])] + TermsOf([]) == [TermOf(gs[0])];
    } else {
      var more := TokensOfEach(gs[1..]) + ([")"] + rest);
      EachIsRead(gs[1..], rest);
      TokensAreRead(gs[0], [","] + more);
      ReadMoreArgs(Tokens(gs[0]), TermOf(gs[0]), more, TermsOf(gs[1..]), rest);
      EachBeginsWithFirst(gs, [")"] + rest);
      hide TokensOfEach;
    }
  }

  lemma EachBeginsWithFirst(gs: seq<Getter>, rest: seq<string>)
    requires |gs| > 1
    ensures TokensOfEach(gs) + rest == Tokens(gs[0]) + ([","] + (TokensOfEach(gs[1..]) + rest))
  {
    hide Tokens;
  }

  ghost function AsExpressions(gs: seq<Getter>): seq<Arg> {
    if gs == [] then [] else [Expression(gs[0])] + AsExpressions(gs[1..])
  }

  lemma {:induction false} ConvertEach(done: seq<Getter>, gs: seq<Getter>)
    requires AllWellFormed(gs)
    requires ConvertArgs("combine", TermsOf(done)) == Ok(AsExpressions(done))
    ensures ConvertArgs("combine", TermsOf(done + gs)) == Ok(AsExpressions(done + gs))
    decreases gs
  {
    if gs == [] {
      assert done + gs == done;
    } else {
      hide WellFormed, ToGetter, TermOf;
      var g := gs[0];
      TermIsGetter(g);
      TermsAppend(done, g);
      var terms := TermsOf(done + [g]);
      assert terms[..|terms| - 1] == TermsOf(done) && terms[|terms| - 1] == TermOf(g);
      assert ConvertArgs("combine", terms) == Ok(AsExpressions(done) + [Expression(g)]);
      ConvertEach(done + [g], gs[1..]);
      assert (done + [g]) + gs[1..] == done + gs;
    }
  }

  lemma {:induction false} TermsAppend(gs: seq<Getter>, g: Getter)
    ensures TermsOf(gs + [g]) == TermsOf(gs) + [TermOf(g)]
    ensures AsExpressions(gs + [g]) == AsExpressions(gs) + [Expression(g)]
  {
    hide TermOf;
    if gs == [] {
      assert gs + [g] == [g] && [g][1..] == [];
    } else {
      TermsAppend(gs[1..], g);
      assert (gs + [g])[1..] == gs[1..] + [g];
    }
  }

  lemma {:induction false} ExpressionsBack(gs: seq<Getter>)
    ensures Expressions(AsExpressions(gs)) == gs
  {
    if gs != [] {
      ExpressionsBack(gs[1..]);
      assert AsExpressions(gs)[1..] == AsExpressions(gs[1..]);
      assert gs == [gs[0]] + gs[1..];
    }
  }

  lemma EachIsExpression(gs: seq<Getter>)
    requires AllWellFormed(gs)
    ensures BuildOp("combine", TermsOf(gs)) == Ok(Combine(gs))
  {
    hide AllWellFormed, TermsOf, AsExpressions, ConvertArgs, Expressions;
    NothingToConvert();
    ConvertEach([], gs);
    assert [] + gs == gs;
    ExpressionsBack(gs);
  }

  lemma NothingToConvert()
    ensures ConvertArgs("combine", TermsOf([])) == Ok(AsExpressions([]))
  {}

  /** Printing and parsing are inverse on every well-formed expression. */
  lemma PrintedExpressionIsParsed(g: Getter)
    requires WellFormed(g)
    ensures Parse(Print(g)) == Ok(g)
  {
    hide WellFormed, TokensOf, Strip, ReadTerm, ToGetter, Tokens, Print;
    StripKeepsTokens(Print(g));
    PrintedTokens(g);
    TokensAreRead(g, []);
    assert Tokens(g) + [] == Tokens(g);
    TermIsGetter(g);
  }

  // ---------- what is parsed can be printed ----------

  /** A delimiter or a name. */
  predicate IsToken(t: string) {
    t in [",", ")", "("] || IsName(t)
  }

  lemma PieceIsName(s: string)
    requires forall c <- s :: !IsDelimiter(c)
    ensures forall t <- Piece(s) :: IsToken(t)
  {
    StripIsStripped(s);
    hide Strip, Stripped;
  }

  lemma {:induction false} TokensAreTokens(s: string)
    ensures forall t <- TokensOf(s) :: IsToken(t)
    decreases |s|
  {
    TokensStep(s);
    var i := FindDelimiter(s);
    hide TokensOf, FindDelimiter, Piece;
    PieceIsName(s[..i]);
    if i < |s| {
      TokensAreTokens(s[i + 1..]);
      hide IsName;
      assert IsToken([s[i]]);
    } else {
      assert s[..i] == s;
    }
  }

  /** A name can become a field, unless it ends in a dot; an operation is well formed. */
  ghost predicate SoundTerm(t: Term) {
    match t
    case Name(s) => IsName(s)
    case Op(g) => WellFormed(g)
  }

  lemma SoundGetter(t: Term)
    requires SoundTerm(t) && ToGetter(t).Ok?
    ensures WellFormed(ToGetter(t).value)
  {
    if t.Name? {
      JoinSplit(t.s, '.');
      SplitParts(t.s, '.');
      hide Split, IsName;
    }
  }

  ghost predicate SoundArg(a: Arg) {
    a.Expression? ==> WellFormed(a.getter)
  }

  lemma {:induction false} SoundArgs(name: string, terms: seq<Term>)
    requires (forall t <- terms :: SoundTerm(t)) && ConvertArgs(name, terms).Ok?
    ensures |ConvertArgs(name, terms).value| == |terms|
    ensures forall a <- ConvertArgs(name, terms).value :: SoundArg(a)
  {
    if terms != [] {
      var n := |terms| - 1;
      SoundArgs(name, terms[..n]);
      assert terms[n] in terms;
      if ToGetter(terms[n]).Ok? {
        SoundGetter(terms[n]);
      }
      hide SoundTerm, WellFormed, ToGetter;
    }
  }

  lemma {:induction false} SoundExpressions(args: seq<Arg>)
    requires forall a <- args :: SoundArg(a)
    ensures AllWellFormed(Expressions(args))
    ensures (forall a <- args :: a.Expression?) ==> |Expressions(args)| == |args|
  {
    hide WellFormed;
    if args != [] {
      assert args[0] in args && forall a <- args[1..] :: a in args;
      SoundExpressions(args[1..]);
      if args[0].Expression? {
        assert Expressions(args)[1..] == Expressions(args[1..]);
      } else {
        assert Expressions(args) == Expressions(args[1..]);
      }
    }
  }

  lemma {:induction false} OnlyNumberHasWidths(name: string, terms: seq<Term>)
    requires name != "number" && ConvertArgs(name, terms).Ok?
    ensures forall a <- ConvertArgs(name, terms).value :: a.Expression?
  {
    hide ToGetter;
    if terms != [] {
      OnlyNumberHasWidths(name, terms[..|terms| - 1]);
    }
  }

  lemma SoundOp(name: string, terms: seq<Term>)
    requires terms != [] && (forall t <- terms :: SoundTerm(t)) && BuildOp(name, terms).Ok?
    ensures WellFormed(BuildOp(name, terms).value)
  {
    hide SoundTerm, ConvertArgs, Expressions, AllWellFormed;
    SoundArgs(name, terms);
    var args := ConvertArgs(name, terms).value;
    if name == "combine" {
      OnlyNumberHasWidths(name, terms);
      SoundExpressions(args);
    } else {
      assert |args| > 0 ==> args[0] in args;
    }
  }

  lemma {:induction false} SoundRead(ts: seq<string>)
    requires (forall t <- ts :: IsToken(t)) && ReadTerm(ts).Ok?
    ensures SoundTerm(ReadTerm(ts).value.value)
    ensures forall t <- ReadTerm(ts).value.rest :: IsToken(t)
    decreases |ts|, 0
  {
    hide IsName, BuildOp, IsOperation, WellFormed;
    assert ts[0] in ts && forall t <- ts[1..] :: t in ts;
    if |ts| > 1 && ts[1] == "(" {
      assert forall t <- ts[2..] :: t in ts;
      SoundReadArgs(ts[2..]);
      SoundOp(ts[0], ReadArgs(ts[2..]).value.value);
    }
  }

  lemma {:induction false} SoundReadArgs(ts: seq<string>)
    requires (forall t <- ts :: IsToken(t)) && ReadArgs(ts).Ok?
    ensures ReadArgs(ts).value.value != [] && forall t <- ReadArgs(ts).value.value :: SoundTerm(t)
    ensures forall t <- ReadArgs(ts).value.rest :: IsToken(t)
    decreases |ts|, 1
  {
    hide IsToken, ReadTerm, SoundTerm;
    SoundRead(ts);
    var rest := ReadTerm(ts).value.rest;
    assert forall t <- rest[1..] :: t in rest;
    if rest[0] == "," {
      SoundReadArgs(rest[1..]);
    }
  }

  /** Every accepted expression has a printed form, and that form means the same. */
  lemma ParsedExpressionHasAPrintedForm(text: string)
    requires Parse(text).Ok?
    ensures WellFormed(Parse(text).value)
    ensures Parse(Print(Parse(text).value)) == Parse(text)
  {
    hide WellFormed, TokensOf, Strip, ReadTerm, ToGetter, Print, SoundTerm, IsToken;
    TokensAreTokens(Strip(text));
    SoundRead(TokensOf(Strip(text)));
    SoundGetter(ReadTerm(TokensOf(Strip(text))).value.value);
    PrintedExpressionIsParsed(Parse(text).value);
  }
}
