/** Masking of RUTs (Chilean tax ids) and account numbers before they are shown. */
module Masking {
  import opened PyStr
  import Parsing

  function Stars(k: nat): (r: string)
    ensures |r| == k && forall i | 0 <= i < k :: r[i] == '*'
  {
    if k == 0 then [] else "*" + Stars(k - 1)
  }

  /** The number of characters of `s` that are not `*`. */
  function Exposed(s: string): (n: nat)
    ensures n <= |s|
  {
    if s == [] then 0 else (if s[0] == '*' then 0 else 1) + Exposed(s[1..])
  }

  /** `enmascarar_rut`: three stars, then the last three characters of the stripped text;
      a stripped text of three characters or fewer is hidden entirely. */
  function EnmascararRut(texto: string): (r: string)
    ensures StartsWith(r, "***")
    ensures |Strip(texto)| <= 3 ==> r == "***"
    ensures |Strip(texto)| > 3 ==> |r| == 6 && EndsWith(Strip(texto), r[3..])
  {
    var t := Strip(texto);
    if |t| <= 3 then "***"
    else
      var tail := t[|t| - 3..];
      assert ("***" + tail)[3..] == tail && ("***" + tail)[..3] == "***";
      "***" + tail
  }

  /** Masking a masked RUT changes nothing. */
  lemma EnmascararRutIdempotent(texto: string)
    ensures EnmascararRut(EnmascararRut(texto)) == EnmascararRut(texto)
  {
    var t := Strip(texto);
    var r := EnmascararRut(texto);
    if |t| > 3 {
      StripShape(texto);
      assert r[0] == '*' && r[|r| - 1] == t[|t| - 1];
      StripNoSpace(r);
      assert r[|r| - 3..] == t[|t| - 3..];
    } else {
      StripNoSpace("***");
    }
  }

  /** The text an account number is masked from: stripped, then every backslash-`s` run
      deleted (the pattern `\\s+` as written). */
  function CuentaLimpia(texto: string): string {
    Parsing.SubBackslashS(Strip(texto), "")
  }

  /** `enmascarar_cuenta`: four stars for a cleaned text of at most four characters,
      otherwise one star per character but the last four, which are kept. */
  function EnmascararCuenta(texto: string): (r: string)
    ensures var t := CuentaLimpia(texto);
      && |r| == (if |t| <= 4 then 4 else |t|)
      && (forall i | 0 <= i < |r| - 4 :: r[i] == '*')
      && (|t| <= 4 ==> r == "****")
      && (|t| > 4 ==> EndsWith(t, r[|r| - 4..]))
  {
    var t := CuentaLimpia(texto);
    if |t| <= 4 then "****" else Stars(|t| - 4) + t[|t| - 4..]
  }

  lemma {:induction false} ExposedAppend(a: string, b: string)
    ensures Exposed(a + b) == Exposed(a) + Exposed(b)
    decreases |a|
  {
    if a != [] {
      assert (a + b)[1..] == a[1..] + b;
      ExposedAppend(a[1..], b);
    } else {
      assert a + b == b;
    }
  }

  lemma {:induction false} ExposedStars(k: nat)
    ensures Exposed(Stars(k)) == 0
    decreases k
  {
    if k > 0 {
      assert Stars(k)[1..] == Stars(k - 1);
      ExposedStars(k - 1);
    }
  }

  /** At most four characters of the account number are shown, and at most three of
      the RUT. */
  lemma MaskingExposesLittle(texto: string)
    ensures Exposed(EnmascararCuenta(texto)) <= 4
    ensures Exposed(EnmascararRut(texto)) <= 3
  {
    var t := CuentaLimpia(texto);
    if |t| > 4 {
      ExposedAppend(Stars(|t| - 4), t[|t| - 4..]);
      ExposedStars(|t| - 4);
    } else {
      assert Exposed("****") == 0 by { ExposedStars(4); assert Stars(4) == "****"; }
    }
    var s := Strip(texto);
    if |s| > 3 {
      ExposedAppend("***", s[|s| - 3..]);
      assert Exposed("***") == 0 by { ExposedStars(3); assert Stars(3) == "***"; }
    } else {
      assert Exposed("***") == 0 by { ExposedStars(3); assert Stars(3) == "***"; }
    }
  }
}
