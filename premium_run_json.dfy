/** The premium side of the `run.json` contract: the supported schema major and the
    validator premium consumers call. */
module PremiumRunJson {
  import opened Common
  import opened PyStr
  import opened Json
  import RunSchema
  import Semver

  // ---------------------------------------------------------------------------
  // Python's int() on a string, base 10

  /** Digits with single underscores between them: `1_000`, not `_1`, `1_` or `1__0`. */
  predicate IsIntBody(b: string) {
    b != [] && IsDigit(b[0]) && IsDigit(b[|b| - 1])
    && (forall i | 0 <= i < |b| :: IsDigit(b[i]) || b[i] == '_')
    && (forall i | 0 <= i < |b| - 1 :: !(b[i] == '_' && b[i + 1] == '_'))
  }

  function RemoveUnderscores(b: string): (r: string)
    ensures '_' !in r
    ensures (forall i | 0 <= i < |b| :: IsDigit(b[i]) || b[i] == '_') ==> AllDigits(r)
  {
    if b == [] then [] else (if b[0] == '_' then [] else [b[0]]) + RemoveUnderscores(b[1..])
  }

  /** `int(s)`: surrounding whitespace, an optional sign, then an integer body, with leading
      zeros allowed; anything else raises ValueError (`None` here). */
  function PyInt(s: string): (r: Option<int>)
  {
    SignedInt(Strip(s))
  }

  /** `int()` after stripping: an optional sign, then an integer body. */
  function SignedInt(t: string): (r: Option<int>)
  {
    var neg := t != [] && t[0] == '-';
    var body := if t != [] && (t[0] == '-' || t[0] == '+') then t[1..] else t;
    if IsIntBody(body) then
      var n: int := DigitsValue(RemoveUnderscores(body));
      Some(if neg then -n else n)
    else None
  }

  lemma {:induction false} RemoveUnderscoresOfDigits(b: string)
    requires AllDigits(b)
    ensures RemoveUnderscores(b) == b
    decreases |b|
  {
    if b != [] {
      RemoveUnderscoresOfDigits(b[1..]);
      assert b == [b[0]] + b[1..];
    }
  }

  lemma IntBodyOfDigits(d: string)
    requires d != [] && AllDigits(d)
    ensures IsIntBody(d) && RemoveUnderscores(d) == d
  {
    RemoveUnderscoresOfDigits(d);
  }

  /** `int(d)` on plain digits is their value. */
  lemma PyIntOfDigits(d: string)
    requires d != [] && AllDigits(d)
    ensures PyInt(d) == Some(DigitsValue(d))
  {
    StripNoSpace(d);
    SignedIntOfDigits(d);
  }

  lemma {:induction false} SignedIntOfDigits(d: string)
    requires d != [] && AllDigits(d)
    ensures SignedInt(d) == Some(DigitsValue(d))
  {
    IntBodyOfDigits(d);
  }

  lemma {:induction false} SignedIntOfMinusDigits(d: string)
    requires d != [] && AllDigits(d)
    ensures SignedInt("-" + d) == Some(-(DigitsValue(d) as int))
  {
    var t := "-" + d;
    assert t[0] == '-' && t[1..] == d;
    SignedIntMinus(t);
    IntBodyOfDigits(d);
    var v: int := DigitsValue(d);
    assert DigitsValue(RemoveUnderscores(t[1..])) == v;
  }

  lemma SignedIntMinus(t: string)
    requires t != [] && t[0] == '-'
    ensures SignedInt(t) == if IsIntBody(t[1..]) then Some(-(DigitsValue(RemoveUnderscores(t[1..])) as int)) else None
  {
  }

  lemma {:induction false} SignedIntOfPlusDigits(d: string)
    requires d != [] && AllDigits(d)
    ensures SignedInt("+" + d) == Some(DigitsValue(d))
  {
    var t := "+" + d;
    assert t != [] && t[0] == '+' && t[1..] == d;
    IntBodyOfDigits(d);
  }

  /** `int("-" + d)` on plain digits is minus their value. */
  lemma PyIntOfMinusDigits(d: string)
    requires d != [] && AllDigits(d)
    ensures PyInt("-" + d) == Some(-(DigitsValue(d) as int))
  {
    var s := "-" + d;
    assert s[|s| - 1] == d[|d| - 1];
    StripNoSpace(s);
    SignedIntOfMinusDigits(d);
  }

  /** `int(str(i)) == i` */
  lemma PyIntOfIntToString(i: int)
    ensures PyInt(IntToString(i)) == Some(i)
  {
    var d := NatToString(if i < 0 then -i else i);
    DigitsValueOfNatToString(if i < 0 then -i else i);
    if i < 0 {
      PyIntOfMinusDigits(d);
      assert IntToString(i) == "-" + d;
    } else {
      PyIntOfDigits(d);
      assert IntToString(i) == d;
    }
  }

  /** A sign and surrounding whitespace are accepted: `int(" +7 ") == 7`. */
  lemma PyIntSignAndSpace(d: string)
    requires d != [] && AllDigits(d)
    ensures PyInt(" +" + d + " ") == Some(DigitsValue(d))
  {
    var t := "+" + d;
    assert t[|t| - 1] == d[|d| - 1];
    assert " +" + d + " " == " " + t + " ";
    StripPadded(t);
    SignedIntOfPlusDigits(d);
  }

  /** A doubled underscore is refused. */
  lemma PyIntDoubleUnderscore()
    ensures PyInt("1__0") == None
  {
    StripNoSpace("1__0");
    assert "1__0"[1] == '_' && "1__0"[2] == '_';
  }

  // ---------------------------------------------------------------------------
  // _schema_major

  datatype SchemaMajorError = NotThreeParts(v: string) | MajorNotInt(v: string)

  /** `_schema_major`: strip, split on `"."`, demand three parts and read the first with
      `int()`. The other two parts are not looked at. */
  function SchemaMajor(v: string): (r: Result<int, SchemaMajorError>)
    ensures r.Ok? ==> |SplitChar(Strip(v), '.')| == 3
    ensures r.Ok? ==> PyInt(SplitChar(Strip(v), '.')[0]) == Some(r.value)
    ensures r.Err? ==> r.error.v == v
  {
    var parts := SplitChar(Strip(v), '.');
    if |parts| != 3 then Err(NotThreeParts(v))
    else match PyInt(parts[0])
      case None => Err(MajorNotInt(v))
      case Some(n) => Ok(n)
  }

  /** Three parts whose first reads as an integer give that integer. */
  lemma SchemaMajorOfParts(v: string, a: string, b: string, c: string, n: int)
    requires SplitChar(Strip(v), '.') == [a, b, c] && PyInt(a) == Some(n)
    ensures SchemaMajor(v) == Ok(n)
  {
  }

  lemma FormatFields(t: Semver.Triple)
    ensures var f := Semver.Format(t);
      Strip(f) == f
      && SplitChar(f, '.') == [NatToString(t.major), NatToString(t.minor), NatToString(t.patch)]
  {
    var a, b, c := NatToString(t.major), NatToString(t.minor), NatToString(t.patch);
    var f := Semver.Format(t);
    assert f[0] == a[0] && f[|f| - 1] == c[|c| - 1];
    StripNoSpace(f);
    Semver.DigitsHaveNoDot(a);
    Semver.DigitsHaveNoDot(b);
    Semver.DigitsHaveNoDot(c);
    Semver.SplitThree(a, b, c);
  }

  /** A SemVer text without surrounding whitespace reads as its major. */
  lemma SchemaMajorOfSemver(t: Semver.Triple)
    ensures SchemaMajor(Semver.Format(t)) == Ok(t.major as int)
  {
    FormatFields(t);
    PyIntOfDigits(NatToString(t.major));
    DigitsValueOfNatToString(t.major);
    SchemaMajorOfParts(Semver.Format(t), NatToString(t.major), NatToString(t.minor), NatToString(t.patch), t.major);
  }

  /** Only the first part is read: `"1.x.y"` gives 1. */
  lemma SchemaMajorIgnoresMinorPatch()
    ensures SchemaMajor("1.x.y") == Ok(1)
  {
    StripNoSpace("1.x.y");
    assert "1.x.y" == "1" + "." + "x" + "." + "y";
    Semver.SplitThree("1", "x", "y");
    PyIntOfIntToString(1);
    assert IntToString(1) == "1";
  }

  /** Two parts are refused. */
  lemma SchemaMajorTwoParts()
    ensures SchemaMajor("1.0").Err?
  {
    StripNoSpace("1.0");
    assert "1.0" == "1" + ['.'] + "0";
    SplitCharCons("1", '.', "0");
    assert SplitChar("0", '.') == ["0"];
  }

  // ---------------------------------------------------------------------------
  // The premium validator

  /** `SUPPORTED_RUN_JSON_SCHEMA_MAJOR`: the major `_schema_major` reads from the core's
      schema version. */
  function SupportedRunJsonSchemaMajor(): (r: int)
    ensures r == 1
  {
    SchemaVersionMajor();
    SchemaMajor(RunSchema.RunJsonSchemaVersion).value
  }

  lemma SchemaVersionMajor()
    ensures SchemaMajor(RunSchema.RunJsonSchemaVersion) == Ok(1)
  {
    SchemaVersionIsFormat();
    SchemaMajorOfSemver(Semver.Triple(1, 0, 0));
  }

  lemma SchemaVersionIsFormat()
    ensures Semver.Format(Semver.Triple(1, 0, 0)) == RunSchema.RunJsonSchemaVersion
  {
    assert NatToString(1) == "1" && NatToString(0) == "0";
  }

  /** `validate_run_payload_for_premium`: the consumer validator with the supported major. */
  function ValidateRunPayloadForPremium(p: map<string, JsonValue>): Result<map<string, JsonValue>, RunSchema.ContractError> {
    RunSchema.ValidateRunPayloadForConsumer(p, Some(SupportedRunJsonSchemaMajor()))
  }

  /** The premium validator accepts and returns exactly what the consumer validator does
      with its default major. */
  lemma PremiumIsDefaultConsumer(p: map<string, JsonValue>)
    ensures ValidateRunPayloadForPremium(p) == RunSchema.ValidateRunPayloadForConsumer(p, None)
  {
    ConsumerWantsDefault(p, SupportedRunJsonSchemaMajor());
  }

  lemma ConsumerWantsDefault(p: map<string, JsonValue>, m: int)
    requires m == RunSchema.DefaultMajor()
    ensures RunSchema.ValidateRunPayloadForConsumer(p, Some(m)) == RunSchema.ValidateRunPayloadForConsumer(p, None)
  {
  }
}
