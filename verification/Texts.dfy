/** Strings as Python handles them: blanks, decimal numbers, splitting, joining and comparing. */
module Texts {
  import opened Wrappers

  // ---------- blanks ----------

  predicate IsBlank(c: char) {
    c in " \t\n\r" || c == '\U{0b}' || c == '\U{0c}'
  }

  function StripLeft(s: string): string {
    if s != "" && IsBlank(s[0]) then StripLeft(s[1..]) else s
  }

  function StripRight(s: string): string {
    if s != "" && IsBlank(s[|s| - 1]) then StripRight(s[..|s| - 1]) else s
  }

  function Strip(s: string): string {
    StripRight(StripLeft(s))
  }

  predicate AllBlank(s: string) {
    forall c <- s :: IsBlank(c)
  }

  /** No blank at either end. */
  predicate Stripped(s: string) {
    s != "" ==> !IsBlank(s[0]) && !IsBlank(s[|s| - 1])
  }

  lemma {:induction false} StripLeftDrops(pad: string, s: string)
    requires AllBlank(pad)
    ensures StripLeft(pad + s) == StripLeft(s)
  {
    if pad == "" {
      assert pad + s == s;
    } else {
      assert (pad + s)[1..] == pad[1..] + s;
      StripLeftDrops(pad[1..], s);
    }
  }

  lemma {:induction false} StripRightDrops(s: string, pad: string)
    requires AllBlank(pad)
    ensures StripRight(s + pad) == StripRight(s)
  {
    if pad == "" {
      assert s + pad == s;
    } else {
      var init := pad[..|pad| - 1];
      assert (s + pad)[..|s + pad| - 1] == s + init;
      StripRightDrops(s, init);
    }
  }

  /** Stripping removes exactly the blanks around a text that has none at its ends. */
  lemma StripDrops(left: string, s: string, right: string)
    requires AllBlank(left) && AllBlank(right) && Stripped(s)
    ensures Strip(left + s + right) == s
  {
    assert left + s + right == left + (s + right);
    StripLeftDrops(left, s + right);
    if s == "" {
      assert s + right == right + "";
      StripLeftDrops(right, "");
    } else {
      StripRightDrops(s, right);
    }
  }

  lemma {:induction false} AllBlankIsStripped(s: string)
    requires AllBlank(s)
    ensures Strip(s) == ""
  {
    StripLeftDrops(s, "");
    assert s + "" == s;
  }

  lemma {:induction false} StripDropsLeft(pad: string, s: string)
    requires AllBlank(pad)
    ensures Strip(pad + s) == Strip(s)
  {
    StripLeftDrops(pad, s);
  }

  lemma {:induction false} StripDropsRight(s: string, pad: string)
    requires AllBlank(pad)
    ensures Strip(s + pad) == Strip(s)
  {
    if s == "" {
      assert s + pad == pad;
      AllBlankIsStripped(pad);
    } else if IsBlank(s[0]) {
      StripDropsRight(s[1..], pad);
      assert (s + pad)[1..] == s[1..] + pad;
    } else {
      StripRightDrops(s, pad);
    }
  }

  lemma {:induction false} StripRightIsStripped(s: string)
    requires s != "" ==> !IsBlank(s[0])
    ensures Stripped(StripRight(s)) && forall c <- StripRight(s) :: c in s
  {
    if s != "" && IsBlank(s[|s| - 1]) {
      StripRightIsStripped(s[..|s| - 1]);
    }
  }

  /** Stripping leaves no blank at the ends and adds no character. */
  lemma {:induction false} StripIsStripped(s: string)
    ensures Stripped(Strip(s)) && forall c <- Strip(s) :: c in s
  {
    if s != "" && IsBlank(s[0]) {
      StripIsStripped(s[1..]);
    } else {
      StripRightIsStripped(s);
    }
  }

  // ---------- splitting and joining ----------

  function Split(s: string, sep: char): (parts: seq<string>)
    ensures parts != []
  {
    if s == "" then [""]
    else if s[0] == sep then [""] + Split(s[1..], sep)
    else
      var rest := Split(s[1..], sep);
      [[s[0]] + rest[0]] + rest[1..]
  }

  function JoinText(parts: seq<string>, sep: char): string
    requires parts != []
  {
    if |parts| == 1 then parts[0] else parts[0] + [sep] + JoinText(parts[1..], sep)
  }

  lemma {:induction false} SplitWithout(s: string, sep: char)
    requires sep !in s
    ensures Split(s, sep) == [s]
  {
    if s != "" {
      SplitWithout(s[1..], sep);
      assert [s[0]] + s[1..] == s;
    }
  }

  lemma {:induction false} SplitFirst(part: string, sep: char, rest: string)
    requires sep !in part
    ensures Split(part + [sep] + rest, sep) == [part] + Split(rest, sep)
  {
    var s := part + [sep] + rest;
    if part == "" {
      assert s[1..] == rest;
    } else {
      SplitFirst(part[1..], sep, rest);
      assert s[1..] == part[1..] + [sep] + rest;
      assert [part[0]] + part[1..] == part;
    }
  }

  lemma {:induction false} SplitJoin(parts: seq<string>, sep: char)
    requires parts != [] && forall p <- parts :: sep !in p
    ensures Split(JoinText(parts, sep), sep) == parts
  {
    if |parts| == 1 {
      SplitWithout(parts[0], sep);
    } else {
      SplitJoin(parts[1..], sep);
      SplitFirst(parts[0], sep, JoinText(parts[1..], sep));
      assert parts == [parts[0]] + parts[1..];
    }
  }

  lemma {:induction false} JoinSplit(s: string, sep: char)
    ensures JoinText(Split(s, sep), sep) == s
  {
    if s != "" {
      JoinSplit(s[1..], sep);
      var rest := Split(s[1..], sep);
      assert s == [s[0]] + s[1..];
      if s[0] == sep {
        assert ([""] + rest)[1..] == rest;
        assert "" + [sep] + s[1..] == [sep] + s[1..];
      } else {
        if |rest| > 1 {
          var more := [sep] + JoinText(rest[1..], sep);
          assert [s[0]] + (rest[0] + more) == ([s[0]] + rest[0]) + more;
        }
      }
    }
  }

  /** The parts have no separator in them, and no character the text did not have. */
  lemma {:induction false} SplitParts(s: string, sep: char)
    ensures forall p <- Split(s, sep), c <- p :: c != sep && c in s
  {
    if s != "" {
      SplitParts(s[1..], sep);
      var rest := Split(s[1..], sep);
      forall p <- Split(s, sep), c <- p ensures c != sep && c in s {
        if p !in rest {
          assert p == "" || p == [s[0]] + rest[0];
        }
      }
    }
  }

  // ---------- decimal numbers ----------

  predicate IsDigit(c: char) {
    '0' <= c <= '9'
  }

  function DigitChar(d: nat): (c: char)
    requires d < 10
    ensures IsDigit(c) && DigitValue(c) == d
  {
    '0' + d as char
  }

  function DigitValue(c: char): (d: nat)
    requires IsDigit(c)
    ensures d < 10
  {
    (c - '0') as nat
  }

  function Decimal(n: nat): (s: string)
    ensures s != "" && forall c <- s :: IsDigit(c)
  {
    if n < 10 then [DigitChar(n)] else Decimal(n / 10) + [DigitChar(n % 10)]
  }

  function DecimalValue(s: string): nat
    requires forall c <- s :: IsDigit(c)
  {
    if s == "" then 0 else 10 * DecimalValue(s[..|s| - 1]) + DigitValue(s[|s| - 1])
  }

  lemma {:induction false} DecimalRoundTrip(n: nat)
    ensures DecimalValue(Decimal(n)) == n
  {
    if n < 10 {
      assert Decimal(n)[..0] == "";
    } else {
      DecimalRoundTrip(n / 10);
      var s := Decimal(n);
      assert s[..|s| - 1] == Decimal(n / 10);
    }
  }

  /** How an integer is printed with `%d`. */
  function IntToString(n: int): string {
    if n < 0 then "-" + Decimal(-n) else Decimal(n)
  }

  function ParseSigned(t: string): Option<int> {
    var digits := if t != "" && t[0] in "+-" then t[1..] else t;
    if digits == "" || !(forall c <- digits :: IsDigit(c)) then None
    else
      var n: int := DecimalValue(digits);
      Some(if t[0] == '-' then -n else n)
  }

  /** A sign, the digits of a tenth, and the last digit: one digit after the other, in base ten. */
  lemma DecimalExactly(n: int)
    ensures n < 0 ==> IntToString(n) == "-" + IntToString(-n)
    ensures n >= 10 ==> IntToString(n) == IntToString(n / 10) + IntToString(n % 10)
    ensures 0 <= n < 10 ==> IntToString(n) == ["0123456789"[n]]
  {
    DigitsAreListed();
  }

  lemma DigitsAreListed()
    ensures forall d: nat :: d < 10 ==> DigitChar(d) == "0123456789"[d]
  {}

  /** How text is read as an integer: outer blanks and one sign are allowed. */
  function ParseInt(s: string): Option<int> {
    ParseSigned(Strip(s))
  }

  lemma StripStripped(s: string)
    requires Stripped(s)
    ensures Strip(s) == s
  {
    StripDrops("", s, "");
    assert "" + s + "" == s;
  }

  /** A number is only read from digits with at most one sign in front. */
  lemma ReadIsANumeral(t: string)
    requires ParseSigned(t).Some?
    ensures exists sign: string, digits: string ::
      sign in ["", "+", "-"] && digits != "" && t == sign + digits && forall c <- digits :: '0' <= c <= '9'
  {
    hide DecimalValue;
    var digits := if t[0] in "+-" then t[1..] else t;
    var sign := if t[0] in "+-" then [t[0]] else "";
    assert t == sign + digits && forall c <- digits :: IsDigit(c);
    assert sign in ["", "+", "-"];
  }

  lemma PlusIsRead(digits: string)
    requires digits != "" && forall c <- digits :: IsDigit(c)
    ensures ParseSigned("+" + digits) == Some(DecimalValue(digits))
  {
    hide DecimalValue;
    var t := "+" + digits;
    assert t[1..] == digits && t[0] == '+';
  }

  lemma UnsignedIsRead(digits: string)
    requires digits != "" && forall c <- digits :: IsDigit(c)
    ensures ParseSigned(digits) == Some(DecimalValue(digits))
    ensures Stripped(digits)
  {
    hide DecimalValue;
    assert digits[0] in digits && digits[|digits| - 1] in digits;
  }

  lemma NegativeIsRead(digits: string)
    requires digits != "" && forall c <- digits :: IsDigit(c)
    ensures var n: int := DecimalValue(digits); ParseSigned("-" + digits) == Some(-n)
    ensures Stripped("-" + digits)
  {
    hide DecimalValue;
    var t := "-" + digits;
    assert t[1..] == digits && t[0] == '-' && digits[|digits| - 1] in digits;
  }

  lemma IntRoundTrip(n: int)
    ensures ParseInt(IntToString(n)) == Some(n)
  {
    hide Strip, Stripped, ParseSigned, Decimal, DecimalValue;
    var m: nat := if n < 0 then -n else n;
    DecimalRoundTrip(m);
    UnsignedIsRead(Decimal(m));
    NegativeIsRead(Decimal(m));
    StripStripped(IntToString(n));
  }

  // ---------- lexicographic order ----------

  predicate LexLess(a: string, b: string) {
    if b == "" then false
    else if a == "" then true
    else a[0] < b[0] || (a[0] == b[0] && LexLess(a[1..], b[1..]))
  }

  predicate LexAtMost(a: string, b: string) {
    a == b || LexLess(a, b)
  }

  lemma {:induction false} LexTotal(a: string, b: string)
    ensures LexLess(a, b) || a == b || LexLess(b, a)
  {
    if a != "" && b != "" && a[0] == b[0] {
      LexTotal(a[1..], b[1..]);
      assert a == [a[0]] + a[1..] && b == [b[0]] + b[1..];
    }
  }

  lemma {:induction false} LexIrreflexive(a: string, b: string)
    ensures !LexLess(a, a)
    ensures !(LexLess(a, b) && LexLess(b, a))
  {
    if a != "" {
      LexIrreflexive(a[1..], if b == "" then "" else b[1..]);
    }
  }

  lemma {:induction false} LexTransitive(a: string, b: string, c: string)
    requires LexLess(a, b) && LexLess(b, c)
    ensures LexLess(a, c)
  {
    if a != "" {
      if a[0] == b[0] == c[0] {
        LexTransitive(a[1..], b[1..], c[1..]);
      }
    }
  }

  lemma {:induction false} LexExtend(a: string, b: string, x: string, y: string)
    requires |a| == |b| && LexLess(a, b)
    ensures LexLess(a + x, b + y)
  {
    assert (a + x)[0] == a[0] && (b + y)[0] == b[0];
    assert (a + x)[1..] == a[1..] + x && (b + y)[1..] == b[1..] + y;
    if a[0] == b[0] {
      LexExtend(a[1..], b[1..], x, y);
    }
  }

  lemma {:induction false} LexPrefix(p: string, a: string, b: string)
    ensures LexLess(p + a, p + b) == LexLess(a, b)
  {
    if p == "" {
      assert p + a == a && p + b == b;
    } else {
      assert (p + a)[1..] == p[1..] + a && (p + b)[1..] == p[1..] + b;
      LexPrefix(p[1..], a, b);
    }
  }

  /** What lies between two strings with a common start has that start. */
  lemma {:induction false} LexBetween(p: string, a: string, b: string, s: string)
    requires LexAtMost(p + a, s) && LexAtMost(s, p + b)
    ensures p <= s
  {
    if p != "" {
      assert (p + a)[0] == p[0] == (p + b)[0];
      assert s != "" && s[0] == p[0];
      assert (p + a)[1..] == p[1..] + a && (p + b)[1..] == p[1..] + b;
      LexBetween(p[1..], a, b, s[1..]);
      assert s == [s[0]] + s[1..] && p == [p[0]] + p[1..];
    }
  }

  ghost predicate Increasing(s: seq<string>) {
    forall i, j :: 0 <= i < j < |s| ==> LexLess(s[i], s[j])
  }

  lemma {:induction false} LeastExists(ids: set<string>) returns (least: string)
    requires ids != {}
    ensures least in ids && forall x <- ids :: LexAtMost(least, x)
  {
    var x :| x in ids;
    if ids == {x} {
      least := x;
    } else {
      var rest := ids - {x};
      var y := LeastExists(rest);
      LexTotal(x, y);
      if LexLess(x, y) {
        least := x;
        forall z <- ids ensures LexAtMost(x, z) {
          if z != x && z != y {
            assert z in rest;
            LexTransitive(x, y, z);
          }
        }
      } else {
        least := y;
        assert forall z <- ids :: z == x || z in rest;
      }
    }
  }

  lemma LeastGoesFirst(ids: set<string>, least: string, rest: seq<string>)
    requires least in ids && forall x <- ids :: LexAtMost(least, x)
    requires Increasing(rest) && forall x :: x in rest <==> x in ids - {least}
    ensures Increasing([least] + rest) && forall x :: x in [least] + rest <==> x in ids
  {
    hide LexLess;
    assert forall x <- rest :: x in ids - {least};
    forall j | 0 <= j < |rest| ensures LexLess(least, rest[j]) {
      assert rest[j] in rest;
    }
  }

  /** A finite set of strings in increasing order. */
  function Sorted(ids: set<string>): (s: seq<string>)
    ensures Increasing(s)
    ensures forall x :: x in s <==> x in ids
    ensures |s| == |ids|
  {
    if ids == {} then []
    else
      var least := Least(ids);
      var rest := Sorted(ids - {least});
      LeastGoesFirst(ids, least, rest);
      [least] + rest
  }

  function Least(ids: set<string>): (least: string)
    requires ids != {}
    ensures least in ids && forall x <- ids :: LexAtMost(least, x)
  {
    LeastIsUnique(ids);
    var least :| least in ids && forall x <- ids :: LexAtMost(least, x);
    least
  }

  lemma LeastIsUnique(ids: set<string>)
    requires ids != {}
    ensures exists x :: x in ids && forall y <- ids :: LexAtMost(x, y)
    ensures forall x <- ids, y <- ids ::
      (forall z <- ids :: LexAtMost(x, z)) && (forall z <- ids :: LexAtMost(y, z)) ==> x == y
  {
    var least := LeastExists(ids);
    forall x <- ids, y <- ids | (forall z <- ids :: LexAtMost(x, z)) && (forall z <- ids :: LexAtMost(y, z))
      ensures x == y
    {
      LexIrreflexive(x, y);
    }
  }

  lemma LeastIsFirst(ids: set<string>, s: seq<string>)
    requires ids != {} && Increasing(s) && forall x :: x in s <==> x in ids
    ensures s != [] && s[0] == Least(ids)
  {
    var least := Least(ids);
    hide LexLess;
    assert least in s;
    var k :| 0 <= k < |s| && s[k] == least;
    assert s[0] in ids;
    LexIrreflexive(s[0], least);
  }

  lemma RestIsTheRest(s: seq<string>)
    requires s != [] && Increasing(s)
    ensures Increasing(s[1..]) && forall x :: x in s[1..] <==> x in s && x != s[0]
  {
    hide LexLess;
    LexIrreflexive(s[0], s[0]);
    assert s == [s[0]] + s[1..];
    forall x | x in s[1..] ensures x != s[0] {
      var j :| 0 < j < |s| && s[j] == x;
    }
  }

  /** There is only one way to put a set of strings in increasing order. */
  lemma {:induction false} SortedIsUnique(ids: set<string>, s: seq<string>)
    requires Increasing(s) && forall x :: x in s <==> x in ids
    ensures Sorted(ids) == s
  {
    hide Increasing;
    assert s != [] ==> s[0] in s;
    if ids == {} {
      assert s == [];
    } else {
      LeastIsFirst(ids, s);
      RestIsTheRest(s);
      SortedIsUnique(ids - {s[0]}, s[1..]);
      assert s == [s[0]] + s[1..];
    }
  }
}
