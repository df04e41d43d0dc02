/** The canonical JSON text of the run artefact and of the audit log:
    `json.dumps(value, ensure_ascii=True, sort_keys=True, separators=(",", ":"))`.
    String escaping follows section 7 of RFC 8259 as Python's ASCII encoder applies it. */
module Json {
  import opened Common
  import opened PyStr

  // ---------------------------------------------------------------------------
  // Values

  /** A character of Python's float `repr` (`0.95`, `1e-05`, `Infinity`, `NaN`). */
  predicate IsFloatChar(c: char) {
    IsDigit(c) || c in "+-.eEInfityaN"
  }

  /** Float rendering is kept abstract: a float is carried as its `repr` text, which is
      never empty, starts like a number and is not the text of an integer. */
  predicate IsFloatText(t: string) {
    t != [] && (IsDigit(t[0]) || t[0] in "-IN")
    && (forall i | 0 <= i < |t| :: IsFloatChar(t[i]))
    && HasNonIntChar(t)
  }

  /** Some character is neither a digit nor a minus sign. */
  predicate HasNonIntChar(t: string) {
    t != [] && ((!IsDigit(t[0]) && t[0] != '-') || HasNonIntChar(t[1..]))
  }

  type FloatText = t: string | IsFloatText(t) witness "0.0"

  lemma {:induction false} NonIntCharAfter(a: string, b: string)
    requires HasNonIntChar(b)
    ensures HasNonIntChar(a + b)
    decreases |a|
  {
    if a != [] {
      assert (a + b)[1..] == a[1..] + b;
      NonIntCharAfter(a[1..], b);
    } else {
      assert a + b == b;
    }
  }

  /** `repr(float(i))`: the integer's digits followed by `.0`. */
  function IntAsFloat(i: int): (r: FloatText)
    ensures r == IntToString(i) + ".0"
  {
    var t := IntToString(i) + ".0";
    assert HasNonIntChar(".0");
    NonIntCharAfter(IntToString(i), ".0");
    assert t[0] == IntToString(i)[0];
    assert forall k | 0 <= k < |t| :: IsFloatChar(t[k]) by {
      var n := if i < 0 then -i else i;
      assert forall k | 0 <= k < |NatToString(n)| :: IsDigit(NatToString(n)[k]);
    }
    t
  }

  /** A JSON-encodable Python value: `None`, `bool`, `int`, `float`, `str`, `list` and
      `dict` with string keys. A dict is a map: its insertion order is irrelevant once
      the keys are sorted. */
  datatype JsonValue =
    | JNull
    | JBool(b: bool)
    | JInt(i: int)
    | JFloat(f: FloatText)
    | JStr(s: string)
    | JArr(items: seq<JsonValue>)
    | JObj(fields: map<string, JsonValue>)

  // ---------------------------------------------------------------------------
  // Key order: Python compares strings code point by code point

  predicate StrLt(a: string, b: string)
    decreases |a|
  {
    b != [] && (a == [] || a[0] < b[0] || (a[0] == b[0] && StrLt(a[1..], b[1..])))
  }

  lemma StrLtIrreflexive(a: string)
    ensures !StrLt(a, a)
  {
  }

  lemma {:induction false} StrLtTransitive(a: string, b: string, c: string)
    requires StrLt(a, b) && StrLt(b, c)
    ensures StrLt(a, c)
    decreases |a|
  {
    if a != [] && a[0] == b[0] && b[0] == c[0] {
      StrLtTransitive(a[1..], b[1..], c[1..]);
    }
  }

  lemma {:induction false} StrLtTotal(a: string, b: string)
    requires a != b
    ensures StrLt(a, b) || StrLt(b, a)
    decreases |a|
  {
    if a != [] && b != [] && a[0] == b[0] {
      assert a == [a[0]] + a[1..] && b == [b[0]] + b[1..];
      StrLtTotal(a[1..], b[1..]);
    }
  }

  lemma {:induction false} StrLtAsymmetric(a: string, b: string)
    requires StrLt(a, b)
    ensures !StrLt(b, a)
  {
    if StrLt(b, a) {
      StrLtTransitive(a, b, a);
      StrLtIrreflexive(a);
    }
  }

  predicate IsLeast(m: string, keys: set<string>) {
    m in keys && forall k | k in keys :: !StrLt(k, m)
  }

  lemma {:induction false} LeastExists(keys: set<string>)
    requires keys != {}
    ensures exists m :: IsLeast(m, keys)
    decreases |keys|
  {
    var x :| x in keys;
    if keys - {x} == {} {
      assert keys == {x};
      StrLtIrreflexive(x);
      assert IsLeast(x, keys);
    } else {
      LeastExists(keys - {x});
      var m :| IsLeast(m, keys - {x});
      if StrLt(x, m) {
        forall k | k in keys
          ensures !StrLt(k, x)
        {
          if k == x {
            StrLtIrreflexive(x);
          } else if StrLt(k, x) {
            StrLtTransitive(k, x, m);
          }
        }
        assert IsLeast(x, keys);
      } else {
        assert IsLeast(m, keys);
      }
    }
  }

  lemma LeastUnique(m: string, n: string, keys: set<string>)
    requires IsLeast(m, keys) && IsLeast(n, keys)
    ensures m == n
  {
    if m != n {
      StrLtTotal(m, n);
    }
  }

  lemma LeastUniqueAll(keys: set<string>)
    ensures forall m, n | IsLeast(m, keys) && IsLeast(n, keys) :: m == n
  {
    forall m, n | IsLeast(m, keys) && IsLeast(n, keys) ensures m == n {
      LeastUnique(m, n, keys);
    }
  }

  /** The keys of a dict in the order `sort_keys=True` emits them. */
  function SortedKeys(keys: set<string>): (r: seq<string>)
    ensures |r| == |keys|
    ensures forall k :: k in keys <==> k in r
    ensures forall i, j | 0 <= i < j < |r| :: StrLt(r[i], r[j])
    decreases |keys|
  {
    if keys == {} then []
    else
      LeastExists(keys);
      LeastUniqueAll(keys);
      var m :| IsLeast(m, keys);
      var rest := SortedKeys(keys - {m});
      LeastBeforeRest(m, keys, rest);
      [m] + rest
  }

  /** The least key followed by the other keys in order is all the keys in order. */
  lemma LeastBeforeRest(m: string, keys: set<string>, rest: seq<string>)
    requires IsLeast(m, keys)
    requires |rest| == |keys - {m}|
    requires forall k :: k in keys - {m} <==> k in rest
    requires forall i, j | 0 <= i < j < |rest| :: StrLt(rest[i], rest[j])
    ensures |[m] + rest| == |keys|
    ensures forall k :: k in keys <==> k in [m] + rest
    ensures forall i, j | 0 <= i < j < |[m] + rest| :: StrLt(([m] + rest)[i], ([m] + rest)[j])
  {
    forall j | 0 <= j < |rest| ensures StrLt(m, rest[j]) {
      assert rest[j] in rest;
      StrLtTotal(m, rest[j]);
    }
    var r := [m] + rest;
    forall i, j | 0 <= i < j < |r| ensures StrLt(r[i], r[j]) {
      if i > 0 {
        assert r[i] == rest[i - 1] && r[j] == rest[j - 1];
      }
    }
  }

  // ---------------------------------------------------------------------------
  // String escaping (ensure_ascii=True)

  predicate IsPrintableAscii(c: char) { ' ' <= c <= '~' }

  predicate AllPrintable(s: string) { forall i | 0 <= i < |s| :: IsPrintableAscii(s[i]) }

  function HexDigit(d: nat): (c: char)
    requires d < 16
    ensures IsPrintableAscii(c)
  {
    HexChar(d)
  }

  /** Four lower-case hexadecimal digits, as `'{0:04x}'.format(n)`. */
  function Hex4(n: nat): (r: string)
    requires n < 0x1_0000
    ensures |r| == 4 && AllPrintable(r)
  {
    [HexDigit(n / 0x1000), HexDigit(n / 0x100 % 16), HexDigit(n / 0x10 % 16), HexDigit(n % 16)]
  }

  /** `\uXXXX` */
  function UEscape(n: nat): (r: string)
    requires n < 0x1_0000
    ensures |r| == 6 && AllPrintable(r)
  {
    "\\u" + Hex4(n)
  }

  /** The escape Python's ASCII encoder writes for one character. */
  function EscapeChar(c: char): string {
    if c == '"' then "\\\""
    else if c == '\\' then "\\\\"
    else if c == '\n' then "\\n"
    else if c == '\r' then "\\r"
    else if c == '\t' then "\\t"
    else if c == '\U{08}' then "\\b"
    else if c == '\U{0c}' then "\\f"
    else if IsPrintableAscii(c) then [c]
    else if (c as int) < 0x1_0000 then UEscape(c as int)
    else
      var n := c as int - 0x1_0000;
      UEscape(0xD800 + n / 0x400) + UEscape(0xDC00 + n % 0x400)
  }

  function Escape(s: string): string {
    if s == [] then "" else EscapeChar(s[0]) + Escape(s[1..])
  }

  /** A string literal: the escaped text between double quotes. */
  function EncodeStr(s: string): string {
    "\"" + Escape(s) + "\""
  }

  // ---------------------------------------------------------------------------
  // Encoding

  function EncodeBool(b: bool): string {
    if b then "true" else "false"
  }

  /** `json.dumps(v, ensure_ascii=True, sort_keys=True, separators=(",", ":"))` */
  function Encode(v: JsonValue): string
    decreases v
  {
    match v
    case JNull => "null"
    case JBool(b) => EncodeBool(b)
    case JInt(i) => IntToString(i)
    case JFloat(f) => f
    case JStr(s) => EncodeStr(s)
    case JArr(items) =>
      "[" + Join(seq(|items|, i requires 0 <= i < |items| => Encode(items[i])), ",") + "]"
    case JObj(fields) =>
      var keys := SortedKeys(fields.Keys);
      "{" + Join(seq(|keys|, i requires 0 <= i < |keys| =>
                       EncodeStr(keys[i]) + ":" + Encode(fields[keys[i]])), ",") + "}"
  }

  /** `canonical_json_dumps`: the canonical encoding followed by one newline. */
  function CanonicalJsonDumps(payload: map<string, JsonValue>): string {
    Encode(JObj(payload)) + "\n"
  }

  /** The text `sha256_json_estable` hashes: the canonical encoding without the newline. */
  function StableHashText(v: JsonValue): string {
    Encode(v)
  }

  // ---------------------------------------------------------------------------
  // Properties of the encoding

  lemma AllPrintableAppend(a: string, b: string)
    requires AllPrintable(a) && AllPrintable(b)
    ensures AllPrintable(a + b)
  {
  }

  lemma NatToStringPrintable(n: nat)
    ensures AllPrintable(NatToString(n))
  {
  }

  lemma EscapeCharPrintable(c: char)
    ensures AllPrintable(EscapeChar(c))
  {
  }

  lemma {:induction false} EscapePrintable(s: string)
    ensures AllPrintable(Escape(s))
  {
    if s != [] {
      EscapeCharPrintable(s[0]);
      EscapePrintable(s[1..]);
    }
  }

  lemma {:induction false} JoinPrintable(parts: seq<string>, sep: string)
    requires AllPrintable(sep)
    requires forall k | 0 <= k < |parts| :: AllPrintable(parts[k])
    ensures AllPrintable(Join(parts, sep))
  {
    if |parts| > 1 {
      JoinPrintable(parts[1..], sep);
    }
  }

  lemma EncodeStrPrintable(s: string)
    ensures AllPrintable(EncodeStr(s))
  {
    EscapePrintable(s);
  }

  lemma EncodeArrPrintable(items: seq<JsonValue>)
    requires forall k | 0 <= k < |items| :: AllPrintable(Encode(items[k]))
    ensures AllPrintable(Encode(JArr(items)))
  {
    var parts := seq(|items|, i requires 0 <= i < |items| => Encode(items[i]));
    JoinPrintable(parts, ",");
    assert Encode(JArr(items)) == "[" + Join(parts, ",") + "]";
  }

  lemma MemberPrintable(key: string, v: string)
    requires AllPrintable(v)
    ensures AllPrintable(EncodeStr(key) + ":" + v)
  {
    EncodeStrPrintable(key);
    AllPrintableAppend(EncodeStr(key), ":");
    AllPrintableAppend(EncodeStr(key) + ":", v);
  }

  /** The members of an object's encoding, in sorted key order. */
  function ObjParts(fields: map<string, JsonValue>): seq<string> {
    var keys := SortedKeys(fields.Keys);
    seq(|keys|, i requires 0 <= i < |keys| => EncodeStr(keys[i]) + ":" + Encode(fields[keys[i]]))
  }

  lemma EncodeObjIsJoin(fields: map<string, JsonValue>)
    ensures Encode(JObj(fields)) == "{" + Join(ObjParts(fields), ",") + "}"
  {
  }

  lemma ObjPartsPrintable(fields: map<string, JsonValue>)
    requires forall k | k in fields :: AllPrintable(Encode(fields[k]))
    ensures forall j | 0 <= j < |ObjParts(fields)| :: AllPrintable(ObjParts(fields)[j])
  {
    var keys := SortedKeys(fields.Keys);
    var parts := ObjParts(fields);
    forall j | 0 <= j < |parts| ensures AllPrintable(parts[j]) {
      assert keys[j] in fields;
      assert parts[j] == EncodeStr(keys[j]) + ":" + Encode(fields[keys[j]]);
      MemberPrintable(keys[j], Encode(fields[keys[j]]));
    }
  }

  lemma EncodeObjPrintable(fields: map<string, JsonValue>)
    requires forall k | k in fields :: AllPrintable(Encode(fields[k]))
    ensures AllPrintable(Encode(JObj(fields)))
  {
    EncodeObjIsJoin(fields);
    ObjPartsPrintable(fields);
    JoinPrintable(ObjParts(fields), ",");
    AllPrintableAppend("{", Join(ObjParts(fields), ","));
    AllPrintableAppend("{" + Join(ObjParts(fields), ","), "}");
  }

  /** Every character of the encoding is printable ASCII: one in 0x20..0x7E. Other code
      points leave as `\uXXXX` escapes, so the encoding holds no raw line break. */
  lemma {:induction false} EncodePrintable(v: JsonValue)
    ensures AllPrintable(Encode(v))
    decreases v
  {
    match v
    case JNull =>
    case JBool(b) =>
    case JInt(i) =>
      EncodeIntPrintable(i);
    case JFloat(f) =>
    case JStr(s) =>
      EncodeStrPrintable(s);
    case JArr(items) =>
      forall k | 0 <= k < |items| ensures AllPrintable(Encode(items[k])) {
        EncodePrintable(items[k]);
      }
      EncodeArrPrintable(items);
    case JObj(fields) =>
      forall k | k in fields ensures AllPrintable(Encode(fields[k])) {
        EncodePrintable(fields[k]);
      }
      EncodeObjPrintable(fields);
  }

  lemma EncodeIntPrintable(i: int)
    ensures AllPrintable(Encode(JInt(i)))
  {
    NatToStringPrintable(if i < 0 then -i else i);
  }

  /** The canonical text ends with one newline and holds no other line break. */
  lemma CanonicalJsonDumpsShape(payload: map<string, JsonValue>)
    ensures var t := CanonicalJsonDumps(payload);
      t != [] && t[|t| - 1] == '\n' && AllPrintable(t[..|t| - 1])
    ensures var t := CanonicalJsonDumps(payload);
      forall i | 0 <= i < |t| - 1 :: !IsLineBreak(t[i])
  {
    var e := Encode(JObj(payload));
    EncodePrintable(JObj(payload));
    var t := e + "\n";
    assert t[..|t| - 1] == e;
  }

  /** The canonical text is the stable-hash text followed by one newline. */
  lemma CanonicalIsStableHashText(payload: map<string, JsonValue>)
    ensures CanonicalJsonDumps(payload) == StableHashText(JObj(payload)) + "\n"
  {
  }
}
