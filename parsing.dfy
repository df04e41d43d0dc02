/** The text parsers of `utils/parsing.py`: Chilean peso amounts, dates in the five
    accepted layouts, and the two text normalisers. */
module Parsing {
  import opened Common
  import opened PyStr
  import opened Calendar

  /** `ErrorParseo` and the message it carries. */
  datatype ParseError =
    | MontoVacio
    | MontoInvalido(texto: string)
    | FechaVacia
    | FechaInvalida(texto: string)

  /** `str(e)` of the ErrorParseo. */
  function ParseErrorMessage(e: ParseError): string {
    match e
    case MontoVacio => "Monto vacio"
    case MontoInvalido(t) => "Monto invalido: " + Repr(t)
    case FechaVacia => "Fecha vacia"
    case FechaInvalida(t) => "Fecha invalida: " + Repr(t)
  }

  /** The message of a parse error is printable: the text it quotes goes through `repr`. */
  lemma ParseErrorMessagePrintable(e: ParseError)
    ensures Printable(ParseErrorMessage(e))
  {
    match e
    case MontoInvalido(t) =>
      AsciiPrintable("Monto invalido: ");
      PrintableConcat("Monto invalido: ", Repr(t));
    case FechaInvalida(t) =>
      AsciiPrintable("Fecha invalida: ");
      PrintableConcat("Fecha invalida: ", Repr(t));
    case _ =>
  }

  predicate NoDigit(s: string) {
    forall i | 0 <= i < |s| :: !IsDigit(s[i])
  }

  // ---------------------------------------------------------------------------
  // Amounts

  /** The characters `_MONEDA_RE` keeps: digits, `,`, `\`, `.` and `-`. */
  predicate IsAmountChar(c: char) {
    IsDigit(c) || c == ',' || c == '\\' || c == '.' || c == '-'
  }

  /** `_MONEDA_RE.sub("", t)`: every character outside the amount characters is dropped. */
  function KeepAmountChars(s: string): (r: string)
    ensures |r| <= |s|
    ensures forall i | 0 <= i < |r| :: IsAmountChar(r[i])
    ensures (forall i | 0 <= i < |s| :: IsAmountChar(s[i])) ==> r == s
    ensures NoDigit(s) ==> NoDigit(r)
  {
    if s == [] then []
    else
      var rest := KeepAmountChars(s[1..]);
      assert forall i | 1 <= i < |s| :: s[1..][i - 1] == s[i];
      (if IsAmountChar(s[0]) then [s[0]] else []) + rest
  }

  lemma {:induction false} ReplaceCharNoDigit(s: string, c: char, repl: string)
    requires NoDigit(repl)
    ensures NoDigit(s) ==> NoDigit(ReplaceChar(s, c, repl))
    decreases |s|
  {
    if s != [] && NoDigit(s) {
      assert NoDigit(s[1..]) by {
        assert forall i | 0 <= i < |s| - 1 :: s[1..][i] == s[i + 1];
      }
      ReplaceCharNoDigit(s[1..], c, repl);
    }
  }

  /** The separator rule: with both `,` and `.` present, `.` groups thousands and `,` is
      the decimal point; with only one kind present, all of it is removed. */
  function NormalizeSeparators(t: string): (r: string)
    ensures ',' !in r
    ensures !(',' in t && '.' in t) ==> '.' !in r
    ensures NoDigit(t) ==> NoDigit(r)
  {
    if ',' in t && '.' in t then
      var u := ReplaceChar(t, '.', "");
      ReplaceCharRemoves(t, '.', "");
      ReplaceCharRemoves(u, ',', ".");
      ReplaceCharNoDigit(t, '.', "");
      ReplaceCharNoDigit(u, ',', ".");
      ReplaceChar(u, ',', ".")
    else
      var t1 := if ',' in t && '.' !in t then ReplaceChar(t, ',', "") else t;
      ReplaceCharRemoves(t, ',', "");
      ReplaceCharKeeps(t, ',', "", '.');
      ReplaceCharNoDigit(t, ',', "");
      var t2 := if '.' in t1 && ',' !in t1 then ReplaceChar(t1, '.', "") else t1;
      ReplaceCharRemoves(t1, '.', "");
      ReplaceCharKeeps(t1, '.', "", ',');
      ReplaceCharNoDigit(t1, '.', "");
      t2
  }

  /** An exact decimal `num / 10^exp`. */
  datatype Dec = Dec(num: int, exp: nat)

  /** `Decimal(t)` on the characters that can reach it: an optional sign, then an
      unsigned decimal; anything else raises InvalidOperation (`None`). */
  function ParseDecimalText(t: string): (r: Option<Dec>)
    ensures r.Some? ==> !NoDigit(t)
  {
    var signed := t != [] && (t[0] == '-' || t[0] == '+');
    var neg := t != [] && t[0] == '-';
    var body := if signed then t[1..] else t;
    match DecimalBody(body)
    case None => None
    case Some(d) =>
      assert signed ==> forall i | 0 <= i < |body| :: body[i] == t[i + 1];
      Some(Dec(if neg then -d.num else d.num, d.exp))
  }

  /** Digits with at most one `.` and a digit on at least one side of it. */
  function DecimalBody(body: string): (r: Option<Dec>)
    ensures r.Some? ==> !NoDigit(body) && r.value.num >= 0
  {
    var parts := SplitChar(body, '.');
    if |parts| == 1 && parts[0] != [] && AllDigits(parts[0]) then
      assert body[0] == parts[0][0];
      Some(Dec(DigitsValue(parts[0]), 0))
    else if |parts| == 2 && AllDigits(parts[0]) && AllDigits(parts[1]) && (parts[0] != [] || parts[1] != []) then
      DigitsValueAppend(parts[0], parts[1]);
      assert body == parts[0] + "." + parts[1];
      assert !NoDigit(body) by {
        if parts[0] != [] {
          assert body[0] == parts[0][0];
        } else {
          assert body[1] == parts[1][0];
        }
      }
      Some(Dec(DigitsValue(parts[0] + parts[1]), |parts[1]|))
    else None
  }

  /** Without a sign the decimal is the unsigned body. */
  lemma ParseDecimalUnsigned(t: string)
    requires t == [] || (t[0] != '-' && t[0] != '+')
    ensures ParseDecimalText(t) == DecimalBody(t)
  {
  }

  /** A minus sign negates the unsigned body after it. */
  lemma ParseDecimalNegative(d: string)
    ensures DecimalBody(d).None? ==> ParseDecimalText("-" + d).None?
    ensures DecimalBody(d).Some? ==>
      ParseDecimalText("-" + d) == Some(Dec(-DecimalBody(d).value.num, DecimalBody(d).value.exp))
  {
    assert ("-" + d)[0] == '-' && ("-" + d)[1..] == d;
  }

  function Abs(x: int): nat {
    if x < 0 then -x else x
  }

  /** `quantize(Decimal("1"))` under ROUND_HALF_EVEN: the nearest integer to
      `num / den`, the even one on a tie. */
  function RoundHalfEven(num: int, den: int): (r: int)
    requires den >= 1
    ensures 2 * Abs(num - r * den) <= den
    ensures 2 * Abs(num - r * den) == den ==> r % 2 == 0
  {
    var q := num / den;
    var rem := num % den;
    assert num == q * den + rem;
    if 2 * rem > den then
      assert num - (q + 1) * den == rem - den;
      q + 1
    else if 2 * rem < den then q
    else if q % 2 == 0 then q
    else
      assert num - (q + 1) * den == rem - den;
      q + 1
  }

  lemma MulAtLeastTwice(x: int, y: int)
    requires x >= 2 && y >= 1
    ensures x * y >= 2 * y
  {
    assert x * y == 2 * y + (x - 2) * y;
  }

  lemma MulCases(d: int, den: int)
    requires den >= 1
    ensures d >= 2 ==> d * den >= 2 * den
    ensures d <= -2 ==> d * den <= -2 * den
    ensures d == 1 ==> d * den == den
    ensures d == -1 ==> d * den == -den
  {
    if d >= 2 {
      MulAtLeastTwice(d, den);
    } else if d <= -2 {
      MulAtLeastTwice(-d, den);
      assert (-d) * den == -(d * den);
    }
  }

  /** The linear core of `NearestUnique`, with `e` standing for `(r - k) * den`. */
  lemma NearestCore(a: int, b: int, den: int, k: int, r: int, e: int)
    requires den >= 1 && e == a - b
    requires 2 * Abs(a) <= den && (2 * Abs(a) == den ==> k % 2 == 0)
    requires 2 * Abs(b) <= den && (2 * Abs(b) == den ==> r % 2 == 0)
    requires r - k >= 2 ==> e >= 2 * den
    requires r - k <= -2 ==> e <= -2 * den
    requires r - k == 1 ==> e == den
    requires r - k == -1 ==> e == -den
    ensures k == r
  {
  }

  /** Two integers both nearest to `num / den`, ties to even, are equal. */
  lemma NearestUnique(num: int, den: int, k: int, r: int)
    requires den >= 1
    requires 2 * Abs(num - k * den) <= den && (2 * Abs(num - k * den) == den ==> k % 2 == 0)
    requires 2 * Abs(num - r * den) <= den && (2 * Abs(num - r * den) == den ==> r % 2 == 0)
    ensures k == r
  {
    var d := r - k;
    MulCases(d, den);
    assert d * den == (num - k * den) - (num - r * den);
    NearestCore(num - k * den, num - r * den, den, k, r, d * den);
  }

  /** Rounding to the nearest integer, ties to even, has one answer. */
  lemma RoundHalfEvenUnique(num: int, den: int, k: int)
    requires den >= 1
    requires 2 * Abs(num - k * den) <= den
    requires 2 * Abs(num - k * den) == den ==> k % 2 == 0
    ensures k == RoundHalfEven(num, den)
  {
    NearestUnique(num, den, k, RoundHalfEven(num, den));
  }

  /** `parse_monto_clp`: the amount as an integral number of pesos. */
  function ParseMontoClp(texto: string): (r: Result<int, ParseError>)
    ensures r == Err(MontoVacio) <==> forall i | 0 <= i < |texto| :: IsSpace(texto[i])
    ensures r.Err? ==> r == Err(MontoVacio) || r == Err(MontoInvalido(texto))
    ensures NoDigit(texto) ==> r.Err?
  {
    StripEmptyIff(texto);
    var t := Strip(texto);
    if t == [] then Err(MontoVacio)
    else
      var t1 := ReplaceChar(KeepAmountChars(t), ' ', "");
      var t2 := NormalizeSeparators(t1);
      StripNoDigit(texto);
      ReplaceCharNoDigit(KeepAmountChars(t), ' ', "");
      match ParseDecimalText(t2)
      case None => Err(MontoInvalido(texto))
      case Some(d) => Ok(RoundHalfEven(d.num, Pow10(d.exp)))
  }

  lemma {:induction false} StripNoDigit(s: string)
    ensures NoDigit(s) ==> NoDigit(Strip(s))
  {
    var l := LStrip(s);
    SliceNoDigit(s, |s| - |l|, |s|);
    SliceNoDigit(l, 0, |RStrip(l)|);
  }

  lemma SliceNoDigit(s: string, a: nat, b: nat)
    requires a <= b <= |s|
    ensures NoDigit(s) ==> NoDigit(s[a..b])
  {
    if NoDigit(s) {
      forall i | 0 <= i < b - a
        ensures !IsDigit(s[a..b][i])
      {
        assert s[a..b][i] == s[a + i];
      }
    }
  }

  /** `parse_monto_clp(str(n)) == n` for every integer. */
  lemma ParseMontoOfInt(n: int)
    ensures ParseMontoClp(IntToString(n)) == Ok(n)
  {
    var m: nat := if n < 0 then -n else n;
    var d := NatToString(m);
    DigitsValueOfNatToString(m);
    if n < 0 {
      assert IntToString(n) == "-" + d;
      ParseMontoOfMinusDigits(d);
    } else {
      assert IntToString(n) == d;
      ParseMontoThousandsDots(d);
      assert '.' !in d;
    }
  }

  lemma RoundHalfEvenOne(x: int)
    ensures RoundHalfEven(x, Pow10(0)) == x
  {
    assert Pow10(0) == 1;
  }

  /** A minus sign and digits read as the negated value. */
  lemma {:induction false} ParseMontoOfMinusDigits(d: string)
    requires d != [] && AllDigits(d)
    ensures ParseMontoClp("-" + d) == Ok(-(DigitsValue(d) as int))
  {
    MinusDigitsChars(d);
    AmountTextIdentity("-" + d);
    ParseDecimalMinusDigits(d);
    ParseMontoOfDecimal("-" + d, -(DigitsValue(d) as int));
  }

  lemma {:induction false} MinusDigitsChars(d: string)
    requires AllDigits(d)
    ensures var s := "-" + d;
      (forall i | 0 <= i < |s| :: IsAmountChar(s[i])) && ',' !in s && '.' !in s
  {
    var s := "-" + d;
    assert forall i | 1 <= i < |s| :: s[i] == d[i - 1];
  }

  /** Amount characters with neither separator pass the filter unchanged. */
  lemma {:induction false} AmountTextIdentity(s: string)
    requires s != [] && (forall i | 0 <= i < |s| :: IsAmountChar(s[i])) && ',' !in s && '.' !in s
    ensures Strip(s) == s && AmountText(s) == s
  {
    AmountTextOfAmountChars(s);
    NormalizeNoComma(s);
  }

  /** An integral decimal reading of the filtered text is the amount. */
  lemma {:induction false} ParseMontoOfDecimal(texto: string, v: int)
    requires Strip(texto) != [] && ParseDecimalText(AmountText(texto)) == Some(Dec(v, 0))
    ensures ParseMontoClp(texto) == Ok(v)
  {
    ParseMontoSteps(texto);
    RoundHalfEvenOne(v);
  }

  /** A parsed amount read back from its text is unchanged. */
  lemma ParseMontoFixedPoint(texto: string)
    requires ParseMontoClp(texto).Ok?
    ensures ParseMontoClp(IntToString(ParseMontoClp(texto).value)) == ParseMontoClp(texto)
  {
    ParseMontoOfInt(ParseMontoClp(texto).value);
  }

  lemma RoundHalfEvenTies()
    ensures RoundHalfEven(25, 10) == 2
    ensures RoundHalfEven(35, 10) == 4
    ensures RoundHalfEven(-25, 10) == -2
    ensures RoundHalfEven(123400, 100) == 1234
  {
  }

  /** A plain digit string as a decimal. */
  lemma {:induction false} ParseDecimalDigits(d: string)
    requires d != [] && AllDigits(d)
    ensures ParseDecimalText(d) == Some(Dec(DigitsValue(d), 0))
  {
    DecimalBodyDigits(d);
    ParseDecimalUnsigned(d);
  }

  lemma {:induction false} DecimalBodyDigits(d: string)
    requires d != [] && AllDigits(d)
    ensures DecimalBody(d) == Some(Dec(DigitsValue(d), 0))
  {
    assert '.' !in d;
    assert SplitChar(d, '.') == [d];
  }

  /** A minus sign and a plain digit string as a decimal. */
  lemma {:induction false} ParseDecimalMinusDigits(d: string)
    requires d != [] && AllDigits(d)
    ensures ParseDecimalText("-" + d) == Some(Dec(-(DigitsValue(d) as int), 0))
  {
    DecimalBodyDigits(d);
    ParseDecimalNegative(d);
  }

  /** Digits, a point and digits as a decimal. */
  lemma {:induction false} ParseDecimalPoint(a: string, b: string)
    requires a != [] && AllDigits(a) && AllDigits(b)
    ensures AllDigits(a + b)
    ensures ParseDecimalText(a + "." + b) == Some(Dec(DigitsValue(a + b), |b|))
  {
    DecimalBodyPoint(a, b);
    assert (a + "." + b)[0] == a[0];
    ParseDecimalUnsigned(a + "." + b);
  }

  lemma {:induction false} DecimalBodyPoint(a: string, b: string)
    requires AllDigits(a) && AllDigits(b) && (a != [] || b != [])
    ensures AllDigits(a + b)
    ensures DecimalBody(a + "." + b) == Some(Dec(DigitsValue(a + b), |b|))
  {
    DigitsValueAppend(a, b);
    assert '.' !in a && '.' !in b;
    assert a + "." + b == a + ['.'] + b;
    SplitCharOne(a, '.', b);
  }

  lemma SplitCharOne(a: string, c: char, b: string)
    requires c !in a && c !in b
    ensures SplitChar(a + [c] + b, c) == [a, b]
  {
    SplitCharCons(a, c, b);
    assert SplitChar(b, c) == [b];
  }

  /** The steps of `parse_monto_clp` up to the `Decimal` call. */
  function AmountText(texto: string): string {
    NormalizeSeparators(ReplaceChar(KeepAmountChars(Strip(texto)), ' ', ""))
  }

  lemma {:induction false} ParseMontoSteps(texto: string)
    requires Strip(texto) != []
    ensures ParseMontoClp(texto) == match ParseDecimalText(AmountText(texto))
      case None => Err(MontoInvalido(texto))
      case Some(d) => Ok(RoundHalfEven(d.num, Pow10(d.exp)))
  {
  }

  /** Digits and the separator `c` only. */
  predicate DigitsAnd(t: string, c: char) {
    forall i | 0 <= i < |t| :: IsDigit(t[i]) || t[i] == c
  }

  predicate DigitsAndDots(t: string) {
    DigitsAnd(t, '.')
  }

  predicate DigitsAndCommas(t: string) {
    DigitsAnd(t, ',')
  }

  /** Removing the separators of digits-and-separator text leaves its digits. */
  lemma {:induction false} DropSeparators(t: string, c: char)
    requires DigitsAnd(t, c) && !IsDigit(c)
    ensures AllDigits(ReplaceChar(t, c, ""))
    ensures !NoDigit(t) ==> ReplaceChar(t, c, "") != []
    decreases |t|
  {
    if t != [] {
      assert DigitsAnd(t[1..], c) by {
        assert forall i | 0 <= i < |t| - 1 :: t[1..][i] == t[i + 1];
      }
      DropSeparators(t[1..], c);
      ReplaceCharCons(t, c, "");
      if t[0] == c && !NoDigit(t) {
        var i :| 0 <= i < |t| && IsDigit(t[i]);
        assert t[1..][i - 1] == t[i];
      }
    }
  }

  lemma DropDots(t: string)
    requires DigitsAndDots(t)
    ensures AllDigits(ReplaceChar(t, '.', ""))
    ensures !NoDigit(t) ==> ReplaceChar(t, '.', "") != []
  {
    DropSeparators(t, '.');
  }

  lemma {:induction false} NormalizeNoComma(t: string)
    requires ',' !in t
    ensures NormalizeSeparators(t) == ReplaceChar(t, '.', "")
  {
  }

  lemma {:induction false} NormalizeNoDot(t: string)
    requires '.' !in t
    ensures NormalizeSeparators(t) == ReplaceChar(t, ',', "")
  {
    ReplaceCharKeeps(t, ',', "", '.');
  }

  lemma {:induction false} NormalizeBoth(t: string)
    requires ',' in t && '.' in t
    ensures NormalizeSeparators(t) == ReplaceChar(ReplaceChar(t, '.', ""), ',', ".")
  {
  }

  /** Text made only of the characters the amount filter keeps is its own strip, and
      goes straight to the separator rules. */
  lemma {:induction false} AmountTextOfAmountChars(texto: string)
    requires texto != [] && forall i | 0 <= i < |texto| :: IsAmountChar(texto[i])
    ensures Strip(texto) == texto
    ensures AmountText(texto) == NormalizeSeparators(texto)
  {
    AmountCharsNoSpace(texto);
    StripNoSpace(texto);
    assert KeepAmountChars(texto) == texto;
    assert ReplaceChar(texto, ' ', "") == texto;
  }

  lemma AmountCharsNoSpace(texto: string)
    requires texto != [] && forall i | 0 <= i < |texto| :: IsAmountChar(texto[i])
    ensures ' ' !in texto && !IsSpace(texto[0]) && !IsSpace(texto[|texto| - 1])
  {
    assert IsAmountChar(texto[0]) && IsAmountChar(texto[|texto| - 1]);
  }

  /** When the separator rules leave plain digits, the amount is their value. */
  lemma {:induction false} ParseMontoOfDigitText(texto: string, u: string)
    requires Strip(texto) != [] && AmountText(texto) == u && u != [] && AllDigits(u)
    ensures ParseMontoClp(texto) == Ok(DigitsValue(u))
  {
    ParseDecimalDigits(u);
    ParseMontoOfDecimal(texto, DigitsValue(u));
  }

  /** A text of digits and dots with some digit: the dots group thousands and go away, as
      in `"150.000"` and `"1.234.567"`. */
  lemma {:induction false} ParseMontoThousandsDots(texto: string)
    requires texto != [] && DigitsAndDots(texto) && !NoDigit(texto)
    ensures AllDigits(ReplaceChar(texto, '.', ""))
    ensures ParseMontoClp(texto) == Ok(DigitsValue(ReplaceChar(texto, '.', "")))
  {
    AmountTextOfAmountChars(texto);
    assert ',' !in texto;
    NormalizeNoComma(texto);
    DropDots(texto);
    ParseMontoOfDigitText(texto, ReplaceChar(texto, '.', ""));
  }

  lemma {:induction false} DigitsAndCommasChars(t: string)
    requires t != [] && DigitsAndCommas(t)
    ensures '.' !in t
    ensures forall i | 0 <= i < |t| :: IsAmountChar(t[i])
  {
  }

  lemma {:induction false} CommasAmountText(texto: string)
    requires texto != [] && DigitsAndCommas(texto)
    ensures Strip(texto) == texto
    ensures AmountText(texto) == ReplaceChar(texto, ',', "")
  {
    DigitsAndCommasChars(texto);
    AmountTextOfAmountChars(texto);
    NormalizeNoDot(texto);
  }

  /** A text of digits and commas with some digit: the commas group thousands and go away,
      as in `"1,234,567"`. */
  lemma {:induction false} ParseMontoThousandsCommas(texto: string)
    requires texto != [] && !NoDigit(texto) && DigitsAndCommas(texto)
    ensures AllDigits(ReplaceChar(texto, ',', ""))
    ensures ParseMontoClp(texto) == Ok(DigitsValue(ReplaceChar(texto, ',', "")))
  {
    CommasAmountText(texto);
    DropSeparators(texto, ',');
    ParseMontoOfDigitText(texto, ReplaceChar(texto, ',', ""));
  }

  /** Digits grouped by dots, a comma, then decimals: the dots go away, the comma becomes
      the decimal point, and the value is rounded half-even, as in `"1.234,00"`. */
  lemma {:induction false} ParseMontoDecimalComma(a: string, c: string)
    requires DigitsAndDots(a) && !NoDigit(a) && '.' in a && AllDigits(c)
    ensures AllDigits(ReplaceChar(a, '.', "") + c)
    ensures ParseMontoClp(a + [','] + c) ==
      Ok(RoundHalfEven(DigitsValue(ReplaceChar(a, '.', "") + c), Pow10(|c|)))
  {
    var t := a + [','] + c;
    DecimalCommaAmountText(a, c);
    ParseMontoSteps(t);
    DropDots(a);
    ParseDecimalPoint(ReplaceChar(a, '.', ""), c);
  }

  lemma {:induction false} DecimalCommaAmountText(a: string, c: string)
    requires DigitsAndDots(a) && !NoDigit(a) && '.' in a && AllDigits(c)
    ensures Strip(a + [','] + c) == a + [','] + c
    ensures AmountText(a + [','] + c) == ReplaceChar(a, '.', "") + "." + c
  {
    var t := a + [','] + c;
    AmountTextOfAmountChars(t);
    assert t[|a|] == ',';
    var j :| 0 <= j < |a| && a[j] == '.';
    assert t[j] == '.';
    NormalizeBoth(t);
    DecimalCommaText(a, c);
  }

  lemma {:induction false} DecimalCommaText(a: string, c: string)
    requires DigitsAndDots(a) && AllDigits(c)
    ensures ReplaceChar(ReplaceChar(a + [','] + c, '.', ""), ',', ".") == ReplaceChar(a, '.', "") + "." + c
  {
    var a' := ReplaceChar(a, '.', "");
    DropDots(a);
    ReplaceCharConcat(a + [','], c, '.', "");
    ReplaceCharConcat(a, [','], '.', "");
    assert '.' !in c;
    assert ReplaceChar(a + [','] + c, '.', "") == a' + [','] + c;
    assert ',' !in a' && ',' !in c;
    ReplaceCharOne(a', ',', c, ".");
  }

  // ---------------------------------------------------------------------------
  // Dates

  predicate IsNonZeroDigit(c: char) { '1' <= c <= '9' }

  /** What `strptime`'s `%d` accepts: `3[01]|[12]\d|0[1-9]|[1-9]| [1-9]`. */
  predicate IsDayField(s: string) {
    (|s| == 1 && IsNonZeroDigit(s[0]))
    || (|s| == 2 && ((s[0] == '3' && (s[1] == '0' || s[1] == '1'))
                     || ((s[0] == '1' || s[0] == '2') && IsDigit(s[1]))
                     || ((s[0] == '0' || s[0] == ' ') && IsNonZeroDigit(s[1]))))
  }

  /** What `%m` accepts: `1[0-2]|0[1-9]|[1-9]`. */
  predicate IsMonthField(s: string) {
    (|s| == 1 && IsNonZeroDigit(s[0]))
    || (|s| == 2 && ((s[0] == '1' && '0' <= s[1] <= '2') || (s[0] == '0' && IsNonZeroDigit(s[1]))))
  }

  /** `%Y` takes four digits, `%y` two. */
  predicate IsYearField(s: string, long: bool) {
    |s| == (if long then 4 else 2) && AllDigits(s)
  }

  lemma TwoDigits(s: string)
    requires |s| == 2 && AllDigits(s)
    ensures DigitsValue(s) == (s[0] as int - '0' as int) * 10 + (s[1] as int - '0' as int)
  {
    var p := s[..1];
    assert p[..0] == [];
    assert DigitsValue(p) == s[0] as int - '0' as int;
  }

  function DayValue(s: string): (r: int)
    requires IsDayField(s)
    ensures 1 <= r <= 31
  {
    if |s| == 1 then s[0] as int - '0' as int
    else
      var t := if s[0] == ' ' then "0" + s[1..] else s;
      TwoDigits(t);
      DigitsValue(t)
  }

  function MonthValue(s: string): (r: int)
    requires IsMonthField(s)
    ensures 1 <= r <= 12
  {
    if |s| == 1 then s[0] as int - '0' as int
    else
      TwoDigits(s);
      DigitsValue(s)
  }

  /** `%Y` reads the year as written; `%y` maps 00-68 to 2000-2068 and 69-99 to 1969-1999. */
  function YearValue(s: string, long: bool): (r: int)
    requires IsYearField(s, long)
    ensures long ==> 0 <= r <= 9999
    ensures !long ==> 1969 <= r <= 2068
  {
    var y := DigitsValue(s);
    if !long then
      TwoDigits(s);
      if y <= 68 then y + 2000 else y + 1900
    else
      PadNatBound4(s);
      y
  }

  lemma PadNatBound4(s: string)
    requires |s| == 4 && AllDigits(s)
    ensures DigitsValue(s) <= 9999
  {
    var p := s[..3];
    var q := p[..2];
    TwoDigits(q);
    assert DigitsValue(p) == DigitsValue(q) * 10 + (p[2] as int - '0' as int);
  }

  datatype Order = DayMonthYear | YearMonthDay

  /** A `strptime` format: the field order, the separator between fields, and whether the
      year is `%Y` (true) or `%y`. */
  datatype Fmt = Fmt(order: Order, sep: char, longYear: bool)

  const DmyDash: Fmt := Fmt(DayMonthYear, '-', true)
  const DmySlash: Fmt := Fmt(DayMonthYear, '/', true)
  const IsoDash: Fmt := Fmt(YearMonthDay, '-', true)
  const DmyDashShort: Fmt := Fmt(DayMonthYear, '-', false)
  const DmySlashShort: Fmt := Fmt(DayMonthYear, '/', false)

  /** `"%d-%m-%Y", "%d/%m/%Y", "%Y-%m-%d", "%d-%m-%y", "%d/%m/%y"`, in this order. */
  const Formats: seq<Fmt> := [DmyDash, DmySlash, IsoDash, DmyDashShort, DmySlashShort]

  /** The date part of `datetime.strptime(t, f)`: the whole text must be the three fields
      joined by the separator, and the fields must name a real date. */
  function Strptime(t: string, f: Fmt): (r: Option<Date>)
    ensures r.Some? ==> ValidDate(r.value)
  {
    var parts := SplitChar(t, f.sep);
    if |parts| != 3 then None
    else
      var ds := if f.order == DayMonthYear then parts[0] else parts[2];
      var ys := if f.order == DayMonthYear then parts[2] else parts[0];
      var ms := parts[1];
      if IsDayField(ds) && IsMonthField(ms) && IsYearField(ys, f.longYear)
      then MakeDate(YearValue(ys, f.longYear), MonthValue(ms), DayValue(ds))
      else None
  }

  /** One turn of the loop: a strptime success, with years below 100 moved to 20xx. */
  function TryFormat(t: string, f: Fmt): (r: Option<Date>)
    ensures r.Some? ==> ValidDate(r.value) && r.value.year >= 100
  {
    match Strptime(t, f)
    case None => None
    case Some(dt) =>
      var y := if dt.year < 100 then dt.year + 2000 else dt.year;
      LeapShift2000(dt.year);
      MakeDate(y, dt.month, dt.day)
  }

  /** The first format that accepts `t`. */
  function FirstFormat(t: string, fmts: seq<Fmt>): (r: Option<Date>)
    ensures r.Some? ==> ValidDate(r.value) && r.value.year >= 100
  {
    if fmts == [] then None
    else if TryFormat(t, fmts[0]).Some? then TryFormat(t, fmts[0])
    else FirstFormat(t, fmts[1..])
  }

  /** The five formats tried in turn. */
  lemma FirstFormatUnrolled(t: string)
    ensures FirstFormat(t, Formats) ==
      if TryFormat(t, DmyDash).Some? then TryFormat(t, DmyDash)
      else if TryFormat(t, DmySlash).Some? then TryFormat(t, DmySlash)
      else if TryFormat(t, IsoDash).Some? then TryFormat(t, IsoDash)
      else if TryFormat(t, DmyDashShort).Some? then TryFormat(t, DmyDashShort)
      else TryFormat(t, DmySlashShort)
  {
    var f4 := [DmySlashShort];
    var f3 := [DmyDashShort] + f4;
    var f2 := [IsoDash] + f3;
    var f1 := [DmySlash] + f2;
    assert Formats == [DmyDash] + f1;
    assert FirstFormat(t, f4) == TryFormat(t, DmySlashShort) by {
      assert f4[0] == DmySlashShort && f4[1..] == [];
    }
    assert FirstFormat(t, f3) == if TryFormat(t, DmyDashShort).Some? then TryFormat(t, DmyDashShort) else FirstFormat(t, f4) by {
      assert f3[0] == DmyDashShort && f3[1..] == f4;
    }
    assert FirstFormat(t, f2) == if TryFormat(t, IsoDash).Some? then TryFormat(t, IsoDash) else FirstFormat(t, f3) by {
      assert f2[0] == IsoDash && f2[1..] == f3;
    }
    assert FirstFormat(t, f1) == if TryFormat(t, DmySlash).Some? then TryFormat(t, DmySlash) else FirstFormat(t, f2) by {
      assert f1[0] == DmySlash && f1[1..] == f2;
    }
    assert Formats[0] == DmyDash && Formats[1..] == f1;
  }

  /** What `parse_fecha_chile` returns. */
  function ParseFecha(texto: string): (r: Result<Date, ParseError>)
    ensures r.Ok? ==> ValidDate(r.value) && r.value.year >= 100
    ensures r == Err(FechaVacia) <==> forall i | 0 <= i < |texto| :: IsSpace(texto[i])
    ensures r.Err? ==> r == Err(FechaVacia) || r == Err(FechaInvalida(texto))
  {
    StripEmptyIff(texto);
    var t := Strip(texto);
    if t == [] then Err(FechaVacia)
    else match FirstFormat(t, Formats)
      case None => Err(FechaInvalida(texto))
      case Some(d) => Ok(d)
  }

  /** `parse_fecha_chile`: strip, then try the formats in order and return on the first
      success. */
  method ParseFechaChile(texto: string) returns (r: Result<Date, ParseError>)
    ensures r == ParseFecha(texto)
  {
    var t := Strip(texto);
    if t == [] {
      return Err(FechaVacia);
    }
    for k := 0 to |Formats|
      invariant FirstFormat(t, Formats) == FirstFormat(t, Formats[k..])
    {
      assert Formats[k..][1..] == Formats[k + 1..];
      var d := TryFormat(t, Formats[k]);
      if d.Some? {
        return Ok(d.value);
      }
    }
    return Err(FechaInvalida(texto));
  }

  /** A two-digit padded day, month or year field. */
  lemma PadTwo(n: int)
    requires 0 <= n <= 99
    ensures var s := PadNat(n, 2);
      |s| == 2 && AllDigits(s) && DigitsValue(s) == n
      && (1 <= n <= 31 ==> IsDayField(s) && DayValue(s) == n)
      && (1 <= n <= 12 ==> IsMonthField(s) && MonthValue(s) == n)
  {
    assert Pow10(2) == 100;
    PadNatValue(n, 2);
    TwoDigits(PadNat(n, 2));
  }

  lemma PadYear(y: int)
    requires 0 <= y <= 9999
    ensures IsYearField(PadNat(y, 4), true) && YearValue(PadNat(y, 4), true) == y
  {
    assert Pow10(4) == 10000;
    PadNatValue(y, 4);
  }

  lemma NoSepInDigits(s: string, c: char)
    requires AllDigits(s) && !IsDigit(c)
    ensures c !in s
  {
  }

  lemma DigitFieldsStrip(a: string, b: string, c: string, sep: char)
    requires a != [] && c != [] && AllDigits(a) && AllDigits(c)
    ensures Strip(a + [sep] + b + [sep] + c) == a + [sep] + b + [sep] + c
  {
    var s := a + [sep] + b + [sep] + c;
    assert s[0] == a[0] && s[|s| - 1] == c[|c| - 1];
    StripNoSpace(s);
  }

  lemma DigitFieldsWithout(a: string, b: string, c: string, sep: char, other: char)
    requires AllDigits(a) && AllDigits(b) && AllDigits(c)
    requires !IsDigit(other) && other != sep
    ensures other !in a + [sep] + b + [sep] + c
  {
    NoSepInDigits(a, other);
    NoSepInDigits(b, other);
    NoSepInDigits(c, other);
  }

  lemma DigitFieldsSplit(a: string, b: string, c: string, sep: char)
    requires AllDigits(a) && AllDigits(b) && AllDigits(c) && !IsDigit(sep)
    ensures SplitChar(a + [sep] + b + [sep] + c, sep) == [a, b, c]
  {
    NoSepInDigits(a, sep);
    NoSepInDigits(b, sep);
    NoSepInDigits(c, sep);
    assert a + [sep] + b + [sep] + c == a + [sep] + (b + [sep] + c);
    SplitCharCons(a, sep, b + [sep] + c);
    SplitCharCons(b, sep, c);
    assert SplitChar(c, sep) == [c];
  }

  /** Three digit fields joined by a separator: their own strip, split back into the
      fields, and free of any other non-digit. */
  lemma DigitFields(a: string, b: string, c: string, sep: char, other: char)
    requires a != [] && c != [] && AllDigits(a) && AllDigits(b) && AllDigits(c)
    requires !IsDigit(sep) && !IsDigit(other) && other != sep
    ensures var s := a + [sep] + b + [sep] + c;
      s != [] && Strip(s) == s && other !in s && SplitChar(s, sep) == [a, b, c]
  {
    DigitFieldsStrip(a, b, c, sep);
    DigitFieldsWithout(a, b, c, sep, other);
    DigitFieldsSplit(a, b, c, sep);
  }

  /** A format whose separator does not occur is refused. */
  lemma TryFormatNoSep(t: string, f: Fmt)
    requires f.sep !in t
    ensures TryFormat(t, f).None?
  {
    assert SplitChar(t, f.sep) == [t];
  }

  /** The three-field split into a date. */
  lemma StrptimeFields(t: string, f: Fmt, a: string, b: string, c: string)
    requires SplitChar(t, f.sep) == [a, b, c]
    ensures var ds := if f.order == DayMonthYear then a else c;
      var ys := if f.order == DayMonthYear then c else a;
      Strptime(t, f) ==
        if IsDayField(ds) && IsMonthField(b) && IsYearField(ys, f.longYear)
        then MakeDate(YearValue(ys, f.longYear), MonthValue(b), DayValue(ds))
        else None
  {
  }

  /** The ISO text of a date: three digit fields between two dashes. */
  lemma IsoFields(d: Date)
    requires ValidDate(d)
    ensures var s := IsoFormat(d);
      s != [] && Strip(s) == s && '/' !in s
      && SplitChar(s, '-') == [PadNat(d.year, 4), PadNat(d.month, 2), PadNat(d.day, 2)]
  {
    PadYear(d.year);
    PadTwo(d.day);
    DigitFields(PadNat(d.year, 4), PadNat(d.month, 2), PadNat(d.day, 2), '-', '/');
  }

  lemma IsoReadByIsoDash(d: Date)
    requires ValidDate(d)
    ensures Strptime(IsoFormat(d), IsoDash) == Some(d)
  {
    IsoFields(d);
    PadYear(d.year);
    PadTwo(d.month);
    PadTwo(d.day);
    StrptimeFields(IsoFormat(d), IsoDash, PadNat(d.year, 4), PadNat(d.month, 2), PadNat(d.day, 2));
  }

  lemma IsoRefusedByDmyDash(d: Date)
    requires ValidDate(d)
    ensures TryFormat(IsoFormat(d), DmyDash).None?
  {
    IsoFields(d);
    PadYear(d.year);
    StrptimeFields(IsoFormat(d), DmyDash, PadNat(d.year, 4), PadNat(d.month, 2), PadNat(d.day, 2));
  }

  /** The ISO text of a date, format by format: the third format is the first to accept it
      (the first reads a four-digit day, the second finds no `/`). */
  lemma IsoStrptime(d: Date)
    requires ValidDate(d)
    ensures FirstFormat(IsoFormat(d), Formats) == TryFormat(IsoFormat(d), IsoDash)
    ensures Strptime(IsoFormat(d), IsoDash) == Some(d)
    ensures Strip(IsoFormat(d)) == IsoFormat(d) && IsoFormat(d) != []
  {
    IsoFields(d);
    IsoReadByIsoDash(d);
    IsoRefusedByDmyDash(d);
    TryFormatNoSep(IsoFormat(d), DmySlash);
    FirstFormatUnrolled(IsoFormat(d));
  }

  /** Text that is its own strip reads as the first format's date. */
  lemma ParseFechaOfStripped(t: string, d: Date)
    requires t != [] && Strip(t) == t && FirstFormat(t, Formats) == Some(d)
    ensures ParseFecha(t) == Ok(d)
  {
  }

  /** A format's reading, with years below 100 moved into the 2000s. */
  lemma TryFormatOf(t: string, f: Fmt, dt: Date)
    requires Strptime(t, f) == Some(dt)
    ensures ValidDate(dt)
    ensures dt.year >= 100 ==> TryFormat(t, f) == Some(dt)
    ensures dt.year < 100 ==> TryFormat(t, f) == Some(Date(dt.year + 2000, dt.month, dt.day))
  {
    LeapShift2000(dt.year);
  }

  /** The ISO text of a date from year 100 on reads back as that date. */
  lemma ParseIsoFormat(d: Date)
    requires ValidDate(d) && d.year >= 100
    ensures ParseFecha(IsoFormat(d)) == Ok(d)
  {
    IsoStrptime(d);
    TryFormatOf(IsoFormat(d), IsoDash, d);
    ParseFechaOfStripped(IsoFormat(d), d);
  }

  /** Years below 100 written in full are read as 20xx. */
  lemma ParseIsoFormatShortYear(d: Date)
    requires ValidDate(d) && d.year < 100
    ensures ParseFecha(IsoFormat(d)) == Ok(Date(d.year + 2000, d.month, d.day))
  {
    IsoStrptime(d);
    TryFormatOf(IsoFormat(d), IsoDash, d);
    ParseFechaOfStripped(IsoFormat(d), Date(d.year + 2000, d.month, d.day));
  }

  lemma DmySlashFields(d: Date)
    requires ValidDate(d)
    ensures var s := FormatDmySlash(d);
      s != [] && Strip(s) == s && '-' !in s
      && SplitChar(s, '/') == [PadNat(d.day, 2), PadNat(d.month, 2), PadNat(d.year, 4)]
  {
    PadYear(d.year);
    PadTwo(d.day);
    DigitFields(PadNat(d.day, 2), PadNat(d.month, 2), PadNat(d.year, 4), '/', '-');
  }

  lemma DmySlashReadByDmySlash(d: Date)
    requires ValidDate(d)
    ensures Strptime(FormatDmySlash(d), DmySlash) == Some(d)
  {
    DmySlashFields(d);
    PadYear(d.year);
    PadTwo(d.month);
    PadTwo(d.day);
    StrptimeFields(FormatDmySlash(d), DmySlash, PadNat(d.day, 2), PadNat(d.month, 2), PadNat(d.year, 4));
  }

  /** `dd/mm/yyyy` text of a date from year 100 on reads back as that date (the first
      format finds no `-`). */
  lemma ParseDmySlash(d: Date)
    requires ValidDate(d) && d.year >= 100
    ensures ParseFecha(FormatDmySlash(d)) == Ok(d)
  {
    DmySlashFields(d);
    DmySlashReadByDmySlash(d);
    TryFormatNoSep(FormatDmySlash(d), DmyDash);
    TryFormatOf(FormatDmySlash(d), DmySlash, d);
    FirstFormatUnrolled(FormatDmySlash(d));
    ParseFechaOfStripped(FormatDmySlash(d), d);
  }

  /** `date.strftime("%d/%m/%y")`. */
  function FormatDmySlashShort(d: Date): string
    requires ValidDate(d)
  {
    PadNat(d.day, 2) + "/" + PadNat(d.month, 2) + "/" + PadNat(d.year % 100, 2)
  }

  lemma ShortFields(d: Date)
    requires ValidDate(d)
    ensures var s := FormatDmySlashShort(d);
      s != [] && Strip(s) == s && '-' !in s
      && SplitChar(s, '/') == [PadNat(d.day, 2), PadNat(d.month, 2), PadNat(d.year % 100, 2)]
  {
    PadTwo(d.day);
    PadTwo(d.year % 100);
    DigitFields(PadNat(d.day, 2), PadNat(d.month, 2), PadNat(d.year % 100, 2), '/', '-');
  }

  lemma ShortRefusedByDmySlash(d: Date)
    requires ValidDate(d)
    ensures TryFormat(FormatDmySlashShort(d), DmySlash).None?
  {
    ShortFields(d);
    PadTwo(d.year % 100);
    StrptimeFields(FormatDmySlashShort(d), DmySlash, PadNat(d.day, 2), PadNat(d.month, 2), PadNat(d.year % 100, 2));
  }

  /** The `%y` pivot undoes `% 100` on the years 1969 to 2068. */
  lemma PivotYear(y: int)
    requires 1969 <= y <= 2068
    ensures 0 <= y % 100 <= 99
    ensures y % 100 <= 68 ==> y % 100 + 2000 == y
    ensures y % 100 > 68 ==> y % 100 + 1900 == y
  {
    if y >= 2000 {
      assert y % 100 == y - 2000;
    } else {
      assert y % 100 == y - 1900;
    }
  }

  lemma ShortYearField(y: int)
    requires 1969 <= y <= 2068
    ensures IsYearField(PadNat(y % 100, 2), false) && YearValue(PadNat(y % 100, 2), false) == y
  {
    PivotYear(y);
    PadTwo(y % 100);
  }

  lemma ShortReadByDmySlashShort(d: Date)
    requires ValidDate(d) && 1969 <= d.year <= 2068
    ensures Strptime(FormatDmySlashShort(d), DmySlashShort) == Some(d)
  {
    ShortFields(d);
    PadTwo(d.month);
    PadTwo(d.day);
    ShortYearField(d.year);
    StrptimeFields(FormatDmySlashShort(d), DmySlashShort, PadNat(d.day, 2), PadNat(d.month, 2), PadNat(d.year % 100, 2));
  }

  /** `dd/mm/yy` text of a date in 1969-2068 reads back as that date: the `%y` pivot puts
      00-68 in the 2000s and 69-99 in the 1900s, as `"05/01/26"` is 5 January 2026. */
  lemma ParseDmySlashShort(d: Date)
    requires ValidDate(d) && 1969 <= d.year <= 2068
    ensures ParseFecha(FormatDmySlashShort(d)) == Ok(d)
  {
    var s := FormatDmySlashShort(d);
    ShortFields(d);
    ShortRefusedByDmySlash(d);
    ShortReadByDmySlashShort(d);
    TryFormatNoSep(s, DmyDash);
    TryFormatNoSep(s, IsoDash);
    TryFormatNoSep(s, DmyDashShort);
    TryFormatOf(s, DmySlashShort, d);
    FirstFormatUnrolled(s);
    ParseFechaOfStripped(s, d);
  }

  lemma PadSmall(n: nat)
    requires n < 10
    ensures PadNat(n, 2) == ['0', DigitChar(n)]
  {
    assert NatToString(n) == [DigitChar(n)];
  }

  lemma PadTwentySix()
    ensures PadNat(26, 2) == "26"
  {
    assert NatToString(2) == "2";
    assert NatToString(26) == NatToString(2) + [DigitChar(6)];
  }

  lemma ShortText20260105()
    ensures FormatDmySlashShort(Date(2026, 1, 5)) == "05/01/26"
  {
    assert 2026 % 100 == 26;
    PadSmall(5);
    PadSmall(1);
    PadTwentySix();
    assert DigitChar(5) == '5' && DigitChar(1) == '1';
    var day, month, year := PadNat(5, 2), PadNat(1, 2), PadNat(26, 2);
    assert day == "05" && month == "01" && year == "26";
    assert day + "/" + month + "/" + year == "05/01/26";
  }

  /** `"05/01/26"` is 5 January 2026. */
  lemma ParseTwoDigitYear()
    ensures ParseFecha("05/01/26") == Ok(Date(2026, 1, 5))
  {
    ParseDmySlashShort(Date(2026, 1, 5));
    ShortText20260105();
  }

  // ---------------------------------------------------------------------------
  // Normalisers

  /** `i` starts a match of the pattern `\\s+` as written: a backslash, then `s`. */
  predicate BackslashSAt(s: string, i: int) {
    0 <= i && i + 1 < |s| && s[i] == '\\' && s[i + 1] == 's'
  }

  predicate NoBackslashS(s: string) {
    forall i | 0 <= i < |s| :: !BackslashSAt(s, i)
  }

  /** The end of the run of `s` letters starting at `from`. */
  function SRunEnd(s: string, from: nat): (r: nat)
    requires from <= |s|
    ensures from <= r <= |s| && (r < |s| ==> s[r] != 's')
    ensures forall j | from <= j < r :: s[j] == 's'
    decreases |s| - from
  {
    if from == |s| || s[from] != 's' then from else SRunEnd(s, from + 1)
  }

  /** `re.sub(r"\\s+", repl, s)`: the raw pattern is a backslash followed by one or more
      `s` letters, and each leftmost, longest such run becomes `repl`. */
  function SubBackslashS(s: string, repl: string): (r: string)
    ensures NoBackslashS(s) ==> r == s
    ensures s == [] ==> r == []
    ensures s != [] && repl != [] ==> r != [] && r[0] == (if BackslashSAt(s, 0) then repl[0] else s[0])
    decreases |s|
  {
    if s == [] then []
    else if BackslashSAt(s, 0) then repl + SubBackslashS(s[SRunEnd(s, 1)..], repl)
    else
      assert forall i | 0 <= i < |s| - 1 :: BackslashSAt(s[1..], i) == BackslashSAt(s, i + 1);
      [s[0]] + SubBackslashS(s[1..], repl)
  }

  /** With a space as replacement nothing is left for the pattern to match. */
  lemma {:induction false} SubLeavesNoMatch(s: string)
    ensures NoBackslashS(SubBackslashS(s, " "))
    decreases |s|
  {
    if s != [] {
      var r := SubBackslashS(s, " ");
      if BackslashSAt(s, 0) {
        var rest := s[SRunEnd(s, 1)..];
        SubLeavesNoMatch(rest);
        var sub := SubBackslashS(rest, " ");
        assert r == " " + sub;
        assert forall i | 1 <= i < |r| :: BackslashSAt(r, i) == BackslashSAt(sub, i - 1);
      } else {
        SubLeavesNoMatch(s[1..]);
        var sub := SubBackslashS(s[1..], " ");
        assert r == [s[0]] + sub;
        assert forall i | 1 <= i < |r| :: BackslashSAt(r, i) == BackslashSAt(sub, i - 1);
        assert !BackslashSAt(r, 0) by {
          if |r| > 1 && r[0] == '\\' {
            assert s[1..] != [];
            assert sub[0] == if BackslashSAt(s[1..], 0) then ' ' else s[1];
          }
        }
      }
    }
  }

  /** `normalizar_texto`: strip, then replace each backslash-`s` run with one space. */
  function NormalizarTexto(texto: string): (r: string)
    ensures texto == "" ==> r == ""
    ensures NoBackslashS(Strip(texto)) ==> r == Strip(texto)
  {
    SubBackslashS(Strip(texto), " ")
  }

  /** `normalizar_referencia`: strip, delete each backslash-`s` run, upper-case. */
  function NormalizarReferencia(texto: string): (r: string)
    ensures texto == "" ==> r == ""
    ensures forall i | 0 <= i < |r| :: !IsLowerAscii(r[i])
    ensures NoBackslashS(Strip(texto)) ==> r == Upper(Strip(texto))
  {
    Upper(SubBackslashS(Strip(texto), ""))
  }

  /** The normalised text holds no backslash-`s` run, so normalising its strip again
      changes nothing but the ends. */
  lemma NormalizarTextoSubIdempotent(texto: string)
    ensures NoBackslashS(NormalizarTexto(texto))
    ensures SubBackslashS(NormalizarTexto(texto), " ") == NormalizarTexto(texto)
  {
    SubLeavesNoMatch(Strip(texto));
  }

  lemma NoBackslashNoMatch(s: string)
    requires '\\' !in s
    ensures NoBackslashS(s)
  {
  }

  /** Text without backslashes and without whitespace at its ends is already normal; in
      particular runs of whitespace inside it are not collapsed. */
  lemma {:induction false} NormalizarTextoKeeps(t: string)
    requires '\\' !in t && (t == [] || (!IsSpace(t[0]) && !IsSpace(t[|t| - 1])))
    ensures NormalizarTexto(t) == t
  {
    StripNoSpace(t);
    NoBackslashNoMatch(t);
  }

  /** `"a  b"` is kept as it is. */
  lemma NormalizarTextoKeepsSpaces()
    ensures NormalizarTexto("a  b") == "a  b"
  {
    var t := "a  b";
    assert t[0] == 'a' && t[3] == 'b';
    assert '\\' !in t;
    NormalizarTextoKeeps(t);
  }

  /** A leading backslash-`s` becomes one space when the next character is not `s`. */
  lemma {:induction false} SubLeadingRun(t: string)
    requires t != [] && t[0] != 's' && NoBackslashS(t)
    ensures SubBackslashS("\\s" + t, " ") == " " + t
  {
    var s := "\\s" + t;
    assert BackslashSAt(s, 0);
    assert s[2] == t[0];
    assert SRunEnd(s, 2) == 2;
    assert SRunEnd(s, 1) == 2;
    assert s[2..] == t;
  }

  lemma {:induction false} StripLeadingSpace(t: string)
    requires t != [] && !IsSpace(t[0]) && !IsSpace(t[|t| - 1])
    ensures Strip(" " + t) == t
  {
    var s := " " + t;
    assert s[1..] == t;
    assert LStrip(s) == LStrip(t);
    StripNoSpace(t);
  }

  /** Stripping happens before the substitution, so the space a leading run turns into
      stays (`"\\sx"` becomes `" x"`), and a second pass strips it away. */
  lemma {:induction false} NormalizarTextoNotIdempotent(t: string)
    requires t != [] && t[0] != 's' && '\\' !in t && !IsSpace(t[0]) && !IsSpace(t[|t| - 1])
    ensures NormalizarTexto("\\s" + t) == " " + t
    ensures NormalizarTexto(NormalizarTexto("\\s" + t)) == t
  {
    var s := "\\s" + t;
    assert s[0] == '\\' && s[|s| - 1] == t[|t| - 1];
    StripNoSpace(s);
    NoBackslashNoMatch(t);
    SubLeadingRun(t);
    StripLeadingSpace(t);
    NormalizarTextoKeeps(t);
  }
}
