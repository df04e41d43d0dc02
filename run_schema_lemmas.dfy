/** What the two `run.json` validators promise, proved about their model. */
module RunSchemaLemmas {
  import opened Common
  import opened Json
  import opened RunSchema
  import Semver
  import PyStr

  // ---------------------------------------------------------------------------
  // Field validation, one level at a time

  /** What an accepted payload consists of. */
  predicate PartsParse(p: map<string, JsonValue>, mode: Mode, obj: RunPayload) {
    ExtraAllowed(p, PayloadKeys, mode)
    && "schema_version" in p && p["schema_version"] == JStr(obj.schemaVersion) && obj.schemaVersion != []
    && "run_id" in p && p["run_id"] == JStr(obj.runId) && obj.runId != []
    && "fingerprint" in p && ParseFingerprint(p["fingerprint"], mode) == Ok(obj.fingerprint)
    && "matches" in p && p["matches"].JArr? && ParseMatches(p["matches"].items, mode) == Ok(obj.matches)
    && "hallazgos" in p && p["hallazgos"].JArr? && ParseHallazgos(p["hallazgos"].items, mode) == Ok(obj.hallazgos)
  }

  lemma ParseFieldsParts(p: map<string, JsonValue>, mode: Mode)
    ensures ParseFields(p, mode).Ok? ==> PartsParse(p, mode, ParseFields(p, mode).value)
    ensures forall obj | PartsParse(p, mode, obj) :: ParseFields(p, mode) == Ok(obj)
  {
  }

  lemma ParseMatchesItem(items: seq<JsonValue>, mode: Mode, i: nat)
    requires ParseMatches(items, mode).Ok? && i < |items|
    ensures ParseMatch(items[i], mode) == Ok(ParseMatches(items, mode).value[i])
  {
  }

  lemma ParseHallazgosItem(items: seq<JsonValue>, mode: Mode, i: nat)
    requires ParseHallazgos(items, mode).Ok? && i < |items|
    ensures ParseHallazgo(items[i], mode) == Ok(ParseHallazgos(items, mode).value[i])
  {
  }

  /** What the producer's acceptance consists of. */
  lemma ValidateParts(p: map<string, JsonValue>)
    requires ValidateRunPayload(p).Ok?
    ensures ParseFields(p, Producer).Ok?
    ensures var obj := ParseFields(p, Producer).value;
      obj.schemaVersion == "1.0.0" && MatchInvariant(obj.matches).Pass?
      && ValidateRunPayload(p).value == DumpPayload(obj)
  {
  }

  lemma ValidateConsumerParts(p: map<string, JsonValue>, acceptMajor: Option<int>)
    requires ValidateRunPayloadForConsumer(p, acceptMajor).Ok?
    ensures ParseFields(p, Consumer).Ok?
    ensures ValidateRunPayloadForConsumer(p, acceptMajor).value == DumpPayload(ParseFields(p, Consumer).value)
  {
  }

  // ---------------------------------------------------------------------------
  // Dump and field validation are inverse on validated records

  lemma {:induction false} StrItemsOfStrArr(ss: seq<string>)
    ensures StrItems(StrArr(ss).items) == Ok(ss)
  {
    var items := StrArr(ss).items;
    if ss != [] {
      assert items[1..] == StrArr(ss[1..]).items;
      StrItemsOfStrArr(ss[1..]);
      assert [ss[0]] + ss[1..] == ss;
    }
  }

  lemma ParseDumpFingerprint(f: RunFingerprint, mode: Mode)
    requires ValidFingerprint(f)
    ensures ParseFingerprint(DumpFingerprint(f), mode) == Ok(f)
  {
  }

  lemma ParseDumpMatch(m: RunMatch, mode: Mode)
    requires ValidMatch(m)
    ensures ParseMatch(DumpMatch(m), mode) == Ok(m)
  {
    var o := DumpMatch(m).fields;
    DumpMatchLookups(m);
    StrItemsOfStrArr(m.transacciones);
    StrItemsOfStrArr(m.movimientos);
    assert ReqStr(o, "id") == Ok(m.id);
    assert ReqStr(o, "estado") == Ok(m.estado);
    assert ReqNumber(o, "score") == Ok(m.score);
    assert ReqStr(o, "regla") == Ok(m.regla);
    assert ReqStr(o, "explicacion") == Ok(m.explicacion);
    assert ReqStrList(o, "transacciones_bancarias") == Ok(m.transacciones);
    assert ReqStrList(o, "movimientos_esperados") == Ok(m.movimientos);
  }

  lemma DumpMatchLookups(m: RunMatch)
    ensures var o := DumpMatch(m).fields;
      o["id"] == JStr(m.id) && o["estado"] == JStr(m.estado) && o["score"] == m.score
      && o["regla"] == JStr(m.regla) && o["explicacion"] == JStr(m.explicacion)
      && o["transacciones_bancarias"] == StrArr(m.transacciones)
      && o["movimientos_esperados"] == StrArr(m.movimientos)
      && o["bloqueado_por_confianza"] == JBool(m.bloqueado)
  {
  }

  /** Strict `float` keeps the value but stores a float: a match whose `score` is the int
      `i` is dumped with the float `i.0` (`1` comes out as `1.0`), in either mode. */
  lemma IntScoreDumpsAsFloat(v: JsonValue, mode: Mode)
    requires v.JObj? && "score" in v.fields && v.fields["score"].JInt?
    requires ParseMatch(v, mode).Ok?
    ensures DumpMatch(ParseMatch(v, mode).value).fields["score"]
      == JFloat(PyStr.IntToString(v.fields["score"].i) + ".0")
  {
    ParsedScore(v, mode);
    DumpMatchLookups(ParseMatch(v, mode).value);
  }

  /** A float `score` is dumped as it was given. */
  lemma FloatScoreKept(v: JsonValue, mode: Mode)
    requires v.JObj? && "score" in v.fields && v.fields["score"].JFloat?
    requires ParseMatch(v, mode).Ok?
    ensures DumpMatch(ParseMatch(v, mode).value).fields["score"] == v.fields["score"]
  {
    ParsedScore(v, mode);
    DumpMatchLookups(ParseMatch(v, mode).value);
  }

  /** The score of a parsed match is what the strict `float` conversion gave. */
  lemma ParsedScore(v: JsonValue, mode: Mode)
    requires ParseMatch(v, mode).Ok?
    ensures v.JObj? && ReqNumber(v.fields, "score") == Ok(ParseMatch(v, mode).value.score)
  {
  }

  lemma ParseDumpHallazgo(h: RunHallazgo, mode: Mode)
    requires ValidHallazgo(h)
    ensures ParseHallazgo(DumpHallazgo(h), mode) == Ok(h)
  {
  }

  /** Validating the dump of a validated payload gives the same payload back, in either
      mode: the dump has every field, and no other. */
  lemma ParseDumpPayload(p: RunPayload, mode: Mode)
    requires ValidPayload(p)
    ensures ParseFields(DumpPayload(p), mode) == Ok(p)
  {
    var d := DumpPayload(p);
    DumpPayloadLookups(p);
    DumpPayloadItems(p);
    ParseDumpItems(p, mode);
    ParseDumpFingerprint(p.fingerprint, mode);
    assert PartsParse(d, mode, p);
    ParseFieldsParts(d, mode);
  }

  lemma DumpPayloadLookups(p: RunPayload)
    ensures var d := DumpPayload(p);
      d["schema_version"] == JStr(p.schemaVersion) && d["run_id"] == JStr(p.runId)
      && d["fingerprint"] == DumpFingerprint(p.fingerprint)
  {
  }

  lemma ParseDumpItems(p: RunPayload, mode: Mode)
    requires ValidPayload(p)
    ensures ParseMatches(DumpPayload(p)["matches"].items, mode) == Ok(p.matches)
    ensures ParseHallazgos(DumpPayload(p)["hallazgos"].items, mode) == Ok(p.hallazgos)
  {
    DumpPayloadItems(p);
    ParseDumpMatches(p.matches, DumpPayload(p)["matches"].items, mode);
    ParseDumpHallazgos(p.hallazgos, DumpPayload(p)["hallazgos"].items, mode);
  }

  lemma ParseDumpMatches(ms: seq<RunMatch>, items: seq<JsonValue>, mode: Mode)
    requires |items| == |ms|
    requires forall i | 0 <= i < |ms| :: ValidMatch(ms[i]) && items[i] == DumpMatch(ms[i])
    ensures ParseMatches(items, mode) == Ok(ms)
  {
    forall i | 0 <= i < |items| ensures ParseMatch(items[i], mode) == Ok(ms[i]) {
      ParseDumpMatch(ms[i], mode);
    }
    var r := ParseMatches(items, mode);
    assert r.Ok?;
    assert r.value == ms;
  }

  lemma ParseDumpHallazgos(hs: seq<RunHallazgo>, items: seq<JsonValue>, mode: Mode)
    requires |items| == |hs|
    requires forall i | 0 <= i < |hs| :: ValidHallazgo(hs[i]) && items[i] == DumpHallazgo(hs[i])
    ensures ParseHallazgos(items, mode) == Ok(hs)
  {
    forall i | 0 <= i < |items| ensures ParseHallazgo(items[i], mode) == Ok(hs[i]) {
      ParseDumpHallazgo(hs[i], mode);
    }
    var r := ParseHallazgos(items, mode);
    assert r.Ok?;
    assert r.value == hs;
  }

  // ---------------------------------------------------------------------------
  // The producer

  /** The producer accepts a payload whose fields validate exactly when its version is
      `"1.0.0"` and no bank id or expected id is listed under two different match ids. */
  lemma ProducerAcceptsIff(p: map<string, JsonValue>)
    requires ParseFields(p, Producer).Ok?
    ensures var obj := ParseFields(p, Producer).value;
      ValidateRunPayload(p).Ok? <==>
        obj.schemaVersion == "1.0.0"
        && Exclusive(TxGroups(obj.matches)) && Exclusive(ExpGroups(obj.matches))
  {
    var obj := ParseFields(p, Producer).value;
    Semver.ParseSchemaVersion();
    MatchInvariantIff(obj.matches);
  }

  /** Any version other than `"1.0.0"` is refused, whatever the rest of the payload. */
  lemma ProducerRejectsOtherVersion(p: map<string, JsonValue>)
    requires ParseFields(p, Producer).Ok?
    requires ParseFields(p, Producer).value.schemaVersion != "1.0.0"
    ensures ValidateRunPayload(p) == Err(UnexpectedSchemaVersion(p["schema_version"].s))
  {
  }

  /** A field the producer models do not declare, at any level, is refused: whatever it
      accepts has only declared keys. */
  lemma ProducerForbidsExtra(p: map<string, JsonValue>)
    requires ValidateRunPayload(p).Ok?
    ensures p.Keys <= PayloadKeys
    ensures "fingerprint" in p && p["fingerprint"].JObj? && p["fingerprint"].fields.Keys <= FingerprintKeys
    ensures "matches" in p && p["matches"].JArr? && forall i | 0 <= i < |p["matches"].items| ::
      p["matches"].items[i].JObj? && p["matches"].items[i].fields.Keys <= MatchKeys
    ensures "hallazgos" in p && p["hallazgos"].JArr? && forall i | 0 <= i < |p["hallazgos"].items| ::
      p["hallazgos"].items[i].JObj? && p["hallazgos"].items[i].fields.Keys <= HallazgoKeys
  {
    ValidateParts(p);
    ParseFieldsParts(p, Producer);
    var items := p["matches"].items;
    var hitems := p["hallazgos"].items;
    forall i | 0 <= i < |items| ensures items[i].JObj? && items[i].fields.Keys <= MatchKeys {
      ParseMatchesItem(items, Producer, i);
    }
    forall i | 0 <= i < |hitems| ensures hitems[i].JObj? && hitems[i].fields.Keys <= HallazgoKeys {
      ParseHallazgosItem(hitems, Producer, i);
    }
  }

  /** The producer's output is what the validated record dumps to, and validating that
      output again returns it unchanged. */
  lemma ProducerIdempotent(p: map<string, JsonValue>)
    requires ValidateRunPayload(p).Ok?
    ensures ValidateRunPayload(ValidateRunPayload(p).value) == ValidateRunPayload(p)
  {
    ValidateParts(p);
    var obj := ParseFields(p, Producer).value;
    ParseDumpPayload(obj, Producer);
  }

  /** Whatever the producer emits, the consumer (default major) accepts unchanged. */
  lemma ProducerOutputPassesConsumer(p: map<string, JsonValue>)
    requires ValidateRunPayload(p).Ok?
    ensures ValidateRunPayloadForConsumer(ValidateRunPayload(p).value, None) == ValidateRunPayload(p)
  {
    ValidateParts(p);
    var obj := ParseFields(p, Producer).value;
    ParseDumpPayload(obj, Consumer);
    Semver.ParseSchemaVersion();
  }

  /** A match without `bloqueado_por_confianza` is emitted with `false`. */
  lemma ProducerDefaultBloqueado(p: map<string, JsonValue>, i: nat)
    requires ValidateRunPayload(p).Ok?
    requires "matches" in p && p["matches"].JArr? && i < |p["matches"].items|
    requires p["matches"].items[i].JObj? && "bloqueado_por_confianza" !in p["matches"].items[i].fields
    ensures var q := ValidateRunPayload(p).value;
      "matches" in q && q["matches"].JArr? && i < |q["matches"].items| && q["matches"].items[i].JObj?
      && "bloqueado_por_confianza" in q["matches"].items[i].fields
      && q["matches"].items[i].fields["bloqueado_por_confianza"] == JBool(false)
  {
    ValidateParts(p);
    ParseFieldsParts(p, Producer);
    var obj := ParseFields(p, Producer).value;
    ParseMatchesItem(p["matches"].items, Producer, i);
    DumpPayloadItems(obj);
    assert !obj.matches[i].bloqueado;
    DumpMatchFields(obj.matches[i]);
  }

  /** A finding without `entidad_id` is emitted with `null`, and one without `detalles`
      with `{}`. */
  lemma ProducerDefaultsHallazgo(p: map<string, JsonValue>, i: nat)
    requires ValidateRunPayload(p).Ok?
    requires "hallazgos" in p && p["hallazgos"].JArr? && i < |p["hallazgos"].items|
    requires p["hallazgos"].items[i].JObj?
    ensures var q := ValidateRunPayload(p).value;
      "hallazgos" in q && q["hallazgos"].JArr? && i < |q["hallazgos"].items| && q["hallazgos"].items[i].JObj?
      && "entidad_id" in q["hallazgos"].items[i].fields && "detalles" in q["hallazgos"].items[i].fields
      && ("entidad_id" !in p["hallazgos"].items[i].fields ==> q["hallazgos"].items[i].fields["entidad_id"] == JNull)
      && ("detalles" !in p["hallazgos"].items[i].fields ==> q["hallazgos"].items[i].fields["detalles"] == JObj(map[]))
  {
    ValidateParts(p);
    ParseFieldsParts(p, Producer);
    var obj := ParseFields(p, Producer).value;
    ParseHallazgosItem(p["hallazgos"].items, Producer, i);
    DumpPayloadItems(obj);
    DumpHallazgoFields(obj.hallazgos[i]);
  }

  lemma DumpPayloadItems(obj: RunPayload)
    ensures var q := DumpPayload(obj);
      q["matches"].JArr? && |q["matches"].items| == |obj.matches|
      && (forall i | 0 <= i < |obj.matches| :: q["matches"].items[i] == DumpMatch(obj.matches[i]))
      && q["hallazgos"].JArr? && |q["hallazgos"].items| == |obj.hallazgos|
      && (forall i | 0 <= i < |obj.hallazgos| :: q["hallazgos"].items[i] == DumpHallazgo(obj.hallazgos[i]))
  {
  }

  lemma DumpMatchFields(m: RunMatch)
    ensures DumpMatch(m).fields["bloqueado_por_confianza"] == JBool(m.bloqueado)
  {
  }

  lemma DumpHallazgoFields(h: RunHallazgo)
    ensures DumpHallazgo(h).fields["entidad_id"] == (if h.entidadId.Some? then JStr(h.entidadId.value) else JNull)
    ensures DumpHallazgo(h).fields["detalles"] == JObj(h.detalles)
  {
  }

  // ---------------------------------------------------------------------------
  // The consumer

  /** The consumer accepts a payload whose fields validate exactly when its version is
      SemVer with the wanted major; in particular it accepts payloads that break the
      match invariant. */
  lemma ConsumerAcceptsIff(p: map<string, JsonValue>, acceptMajor: Option<int>)
    requires ParseFields(p, Consumer).Ok?
    ensures var obj := ParseFields(p, Consumer).value;
      var want := if acceptMajor.Some? then acceptMajor.value else 1;
      ValidateRunPayloadForConsumer(p, acceptMajor).Ok? <==>
        Semver.ParseSemver(obj.schemaVersion).Some? && Semver.ParseSemver(obj.schemaVersion).value.major == want
  {
  }

  /** A field the consumer models do not declare changes nothing: it is ignored. */
  lemma ConsumerIgnoresUnknownField(p: map<string, JsonValue>, k: string, v: JsonValue, acceptMajor: Option<int>)
    requires k !in PayloadKeys
    ensures ValidateRunPayloadForConsumer(p[k := v], acceptMajor) == ValidateRunPayloadForConsumer(p, acceptMajor)
  {
    assert ParseFields(p[k := v], Consumer) == ParseFields(p, Consumer);
  }

  /** The consumer's output holds the declared fields only, at every level. */
  lemma ConsumerDropsUnknownFields(p: map<string, JsonValue>, acceptMajor: Option<int>)
    requires ValidateRunPayloadForConsumer(p, acceptMajor).Ok?
    ensures var q := ValidateRunPayloadForConsumer(p, acceptMajor).value;
      q.Keys == PayloadKeys
      && q["fingerprint"].JObj? && q["fingerprint"].fields.Keys == FingerprintKeys
      && q["matches"].JArr?
      && (forall i | 0 <= i < |q["matches"].items| ::
            q["matches"].items[i].JObj? && q["matches"].items[i].fields.Keys == MatchKeys)
      && q["hallazgos"].JArr?
      && (forall i | 0 <= i < |q["hallazgos"].items| ::
            q["hallazgos"].items[i].JObj? && q["hallazgos"].items[i].fields.Keys == HallazgoKeys)
  {
    ValidateConsumerParts(p, acceptMajor);
    var obj := ParseFields(p, Consumer).value;
    DumpPayloadItems(obj);
  }

  /** The consumer has no defaults for `bloqueado_por_confianza` and `detalles`. */
  lemma ConsumerRequiresNoDefaults(p: map<string, JsonValue>, acceptMajor: Option<int>)
    requires ValidateRunPayloadForConsumer(p, acceptMajor).Ok?
    ensures "matches" in p && p["matches"].JArr?
      && forall i | 0 <= i < |p["matches"].items| ::
           p["matches"].items[i].JObj? && "bloqueado_por_confianza" in p["matches"].items[i].fields
    ensures "hallazgos" in p && p["hallazgos"].JArr?
      && forall i | 0 <= i < |p["hallazgos"].items| ::
           p["hallazgos"].items[i].JObj? && "detalles" in p["hallazgos"].items[i].fields
  {
    ValidateConsumerParts(p, acceptMajor);
    ParseFieldsParts(p, Consumer);
    var items := p["matches"].items;
    var hitems := p["hallazgos"].items;
    forall i | 0 <= i < |items| ensures items[i].JObj? && "bloqueado_por_confianza" in items[i].fields {
      ParseMatchesItem(items, Consumer, i);
    }
    forall i | 0 <= i < |hitems| ensures hitems[i].JObj? && "detalles" in hitems[i].fields {
      ParseHallazgosItem(hitems, Consumer, i);
    }
  }
}
