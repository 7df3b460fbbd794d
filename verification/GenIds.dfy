/** The ids of the server's generation documents, and why their order is the order of the generations. */
module GenIds {
  import opened Texts

  const WIDTH: nat := 10

  function Zeros(n: nat): (s: string)
    ensures |s| == n
  {
    if n == 0 then "" else Zeros(n - 1) + "0"
  }

  function ZFill(s: string, width: nat): string {
    if width <= |s| then s else Zeros(width - |s|) + s
  }

  function GenId(gen: nat): string {
    "gen-" + ZFill(Decimal(gen), WIDTH)
  }

  function Pow10(n: nat): (p: nat)
    ensures p > 0
  {
    if n == 0 then 1 else 10 * Pow10(n - 1)
  }

  /** The first generation whose number is too long for its id. */
  const LIMIT: nat := Pow10(WIDTH)

  /** A number in exactly `width` digits, the last ones if it has more. */
  function Digits(n: nat, width: nat): (s: string)
    ensures |s| == width
  {
    if width == 0 then "" else Digits(n / 10, width - 1) + [DigitChar(n % 10)]
  }

  lemma {:induction false} DigitsOfZero(width: nat)
    ensures Digits(0, width) == Zeros(width)
  {
    if width > 0 {
      DigitsOfZero(width - 1);
    }
  }

  lemma {:induction false} FilledIsDigits(n: nat, width: nat)
    requires 0 < width && n < Pow10(width)
    ensures |Decimal(n)| <= width && ZFill(Decimal(n), width) == Digits(n, width)
  {
    DigitsOfZero(width - 1);
    if 10 <= n {
      assert width > 1 by {
        assert Pow10(1) == 10 * Pow10(0);
      }
      FilledIsDigits(n / 10, width - 1);
      var front := Decimal(n / 10);
      assert Decimal(n) == front + [DigitChar(n % 10)];
      assert Zeros(width - |Decimal(n)|) + (front + [DigitChar(n % 10)]) ==
        (Zeros(width - |Decimal(n)|) + front) + [DigitChar(n % 10)];
    }
  }

  lemma {:induction false} DigitsOrder(a: nat, b: nat, width: nat)
    requires a < b < Pow10(width)
    ensures LexLess(Digits(a, width), Digits(b, width))
  {
    var x, y := DigitChar(a % 10), DigitChar(b % 10);
    if a / 10 < b / 10 {
      DigitsOrder(a / 10, b / 10, width - 1);
      LexExtend(Digits(a / 10, width - 1), Digits(b / 10, width - 1), [x], [y]);
    } else {
      assert x < y;
      assert LexLess([x], [y]);
      LexPrefix(Digits(a / 10, width - 1), [x], [y]);
    }
  }

  /** Ten digits, or as many as the number has if those are more. */
  lemma GenIdExactly(gen: nat)
    ensures exists zeros: string ::
      && GenId(gen) == "gen-" + (zeros + IntToString(gen))
      && (forall c <- zeros :: c == '0')
      && |zeros| == (if |IntToString(gen)| < 10 then 10 - |IntToString(gen)| else 0)
  {
    var text := IntToString(gen);
    hide Decimal;
    if |text| < 10 {
      var zeros := Zeros(10 - |text|);
      OnlyZeros(10 - |text|);
      assert GenId(gen) == "gen-" + (zeros + text);
    } else {
      assert "" + text == text;
    }
  }

  lemma {:induction false} OnlyZeros(n: nat)
    ensures forall c <- Zeros(n) :: c == '0'
  {
    if n > 0 {
      OnlyZeros(n - 1);
    }
  }

  /** Below the limit, ids order as the numbers do. */
  lemma GenIdOrder(a: nat, b: nat)
    requires a < LIMIT && b < LIMIT
    ensures LexLess(GenId(a), GenId(b)) <==> a < b
    ensures GenId(a) == GenId(b) <==> a == b
  {
    FilledIsDigits(a, WIDTH);
    FilledIsDigits(b, WIDTH);
    LexIrreflexive(GenId(a), GenId(b));
    if a < b {
      DigitsOrder(a, b, WIDTH);
      LexPrefix("gen-", Digits(a, WIDTH), Digits(b, WIDTH));
    } else if b < a {
      DigitsOrder(b, a, WIDTH);
      LexPrefix("gen-", Digits(b, WIDTH), Digits(a, WIDTH));
    }
  }

  lemma TenTimes(n: nat)
    requires n > 0
    ensures Decimal(10 * n) == Decimal(n) + "0"
  {
    assert (10 * n) / 10 == n && (10 * n) % 10 == 0;
  }

  /** At the limit the order breaks: that id sorts before those of nine tenths of the earlier generations. */
  lemma GenIdOrderEndsAtTheLimit(a: nat)
    requires LIMIT / 10 < a < LIMIT
    ensures LexLess(GenId(LIMIT), GenId(a))
  {
    var tenth := Pow10(9);
    assert LIMIT == 10 * tenth;
    hide Digits, LexLess, Decimal, Pow10;
    FilledIsDigits(tenth, WIDTH);
    FilledIsDigits(a, WIDTH);
    DigitsOrder(tenth, a, WIDTH);
    FullWidth(9);
    TenTimes(tenth);
    LexExtend(Digits(tenth, WIDTH), Digits(a, WIDTH), "0", "");
    assert Digits(a, WIDTH) + "" == Digits(a, WIDTH);
    LexPrefix("gen-", Decimal(LIMIT), Digits(a, WIDTH));
  }

  lemma {:induction false} FullWidth(k: nat)
    ensures |Decimal(Pow10(k))| == k + 1
  {
    if k > 0 {
      FullWidth(k - 1);
      assert Pow10(k) / 10 == Pow10(k - 1);
    }
  }
}
