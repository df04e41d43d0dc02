/** The `run.json` contract between the core and its consumers: a strict producer
    validator (exact schema version, unknown fields rejected, each bank and expected id in
    at most one match) and a forward-compatible consumer validator (unknown fields dropped,
    SemVer major checked). Both return the canonical dict the record dumps to. */
module RunSchema {
  import opened Common
  import opened PyStr
  import opened Json
  import Semver

  /** The version of the `run.json` artefact contract (not the package version). */
  const RunJsonSchemaVersion: string := "1.0.0"

  /** Why a payload is refused. `InvalidFields` stands for pydantic's ValidationError: a
      required field missing, an unknown field under `extra="forbid"`, a value of the wrong
      type (strict mode) or an empty string or list where `min_length=1`. */
  datatype ContractError =
    | InvalidFields
    | UnexpectedSchemaVersion(got: string)
    | InvalidSemver(v: string)
    | TxInMultipleMatches(tx: string)
    | ExpInMultipleMatches(exp: string)
    | IncompatibleMajor(v: string, major: nat, accept: int)

  /** The producer models forbid extra fields and default two fields; the consumer models
      ignore extra fields and require those two. */
  datatype Mode = Producer | Consumer

  datatype RunFingerprint = RunFingerprint(
    configSha256: string, bankSha256: string, expectedSha256: string,
    mask: bool, permitirOcr: bool, modeloInternoVersion: string, version: string)

  datatype RunMatch = RunMatch(
    id: string, estado: string, score: JsonValue, regla: string, explicacion: string,
    transacciones: seq<string>, movimientos: seq<string>, bloqueado: bool)

  datatype RunHallazgo = RunHallazgo(
    id: string, severidad: string, tipo: string, mensaje: string, entidad: string,
    entidadId: Option<string>, detalles: map<string, JsonValue>)

  datatype RunPayload = RunPayload(
    schemaVersion: string, runId: string, fingerprint: RunFingerprint,
    matches: seq<RunMatch>, hallazgos: seq<RunHallazgo>)

  // ---------------------------------------------------------------------------
  // Field names

  const PayloadKeys: set<string> := {"schema_version", "run_id", "fingerprint", "matches", "hallazgos"}
  const FingerprintKeys: set<string> :=
    {"config_sha256", "bank_sha256", "expected_sha256", "mask", "permitir_ocr",
     "modelo_interno_version", "version"}
  const MatchKeys: set<string> :=
    {"id", "estado", "score", "regla", "explicacion", "transacciones_bancarias",
     "movimientos_esperados", "bloqueado_por_confianza"}
  const HallazgoKeys: set<string> :=
    {"id", "severidad", "tipo", "mensaje", "entidad", "entidad_id", "detalles"}
  const Entidades: set<string> := {"banco", "esperado", "match", "sistema"}

  // ---------------------------------------------------------------------------
  // What a validated record satisfies

  predicate IsNumber(v: JsonValue) { v.JInt? || v.JFloat? }

  predicate ValidFingerprint(f: RunFingerprint) {
    f.configSha256 != [] && f.bankSha256 != [] && f.expectedSha256 != []
    && f.modeloInternoVersion != [] && f.version != []
  }

  predicate ValidMatch(m: RunMatch) {
    m.id != [] && m.estado != [] && m.score.JFloat? && m.regla != [] && m.explicacion != []
    && |m.transacciones| >= 1 && |m.movimientos| >= 1
  }

  predicate ValidHallazgo(h: RunHallazgo) {
    h.id != [] && h.severidad != [] && h.tipo != [] && h.mensaje != [] && h.entidad in Entidades
  }

  predicate ValidPayload(p: RunPayload) {
    p.schemaVersion != [] && p.runId != [] && ValidFingerprint(p.fingerprint)
    && (forall i | 0 <= i < |p.matches| :: ValidMatch(p.matches[i]))
    && (forall i | 0 <= i < |p.hallazgos| :: ValidHallazgo(p.hallazgos[i]))
  }

  // ---------------------------------------------------------------------------
  // Field validation (pydantic strict mode)

  /** `extra="forbid"` for the producer, `extra="ignore"` for the consumer. */
  predicate ExtraAllowed(o: map<string, JsonValue>, keys: set<string>, mode: Mode) {
    mode == Consumer || o.Keys <= keys
  }

  /** `str = Field(min_length=1)` */
  function ReqStr(o: map<string, JsonValue>, k: string): (r: Result<string, ContractError>)
    ensures r.Ok? <==> k in o && o[k].JStr? && o[k].s != []
    ensures r.Ok? ==> o[k] == JStr(r.value)
  {
    if k in o && o[k].JStr? && o[k].s != [] then Ok(o[k].s) else Err(InvalidFields)
  }

  /** `bool`, with a default when one is given and the field is missing. */
  function ReqBool(o: map<string, JsonValue>, k: string, default: Option<bool>): (r: Result<bool, ContractError>)
    ensures k in o ==> (r.Ok? <==> o[k].JBool?) && (r.Ok? ==> o[k] == JBool(r.value))
    ensures k !in o ==> (r.Ok? <==> default.Some?) && (r.Ok? ==> r.value == default.value)
  {
    if k in o then (if o[k].JBool? then Ok(o[k].b) else Err(InvalidFields))
    else if default.Some? then Ok(default.value) else Err(InvalidFields)
  }

  /** `float` in strict mode takes an int or a float, never a bool, and stores a float:
      an int comes out as the float of the same value. */
  function ReqNumber(o: map<string, JsonValue>, k: string): (r: Result<JsonValue, ContractError>)
    ensures r.Ok? <==> k in o && IsNumber(o[k])
    ensures r.Ok? ==> r.value.JFloat?
    ensures r.Ok? && o[k].JFloat? ==> r.value == o[k]
    ensures r.Ok? && o[k].JInt? ==> r.value.f == IntToString(o[k].i) + ".0"
  {
    if k in o && o[k].JFloat? then Ok(o[k])
    else if k in o && o[k].JInt? then Ok(JFloat(IntAsFloat(o[k].i)))
    else Err(InvalidFields)
  }

  function StrItems(items: seq<JsonValue>): (r: Result<seq<string>, ContractError>)
    ensures r.Ok? <==> forall i | 0 <= i < |items| :: items[i].JStr?
    ensures r.Ok? ==> |r.value| == |items| && forall i | 0 <= i < |items| :: items[i] == JStr(r.value[i])
  {
    if items == [] then Ok([])
    else if !items[0].JStr? then Err(InvalidFields)
    else
      var rest :- StrItems(items[1..]);
      Ok([items[0].s] + rest)
  }

  /** `list[str] = Field(min_length=1)` */
  function ReqStrList(o: map<string, JsonValue>, k: string): (r: Result<seq<string>, ContractError>)
    ensures r.Ok? ==> |r.value| >= 1 && k in o && o[k].JArr? && |o[k].items| == |r.value|
    ensures r.Ok? ==> forall i | 0 <= i < |r.value| :: o[k].items[i] == JStr(r.value[i])
  {
    if k in o && o[k].JArr? && |o[k].items| >= 1 then StrItems(o[k].items) else Err(InvalidFields)
  }

  /** `str | None = None` */
  function OptStr(o: map<string, JsonValue>, k: string): (r: Result<Option<string>, ContractError>)
    ensures k !in o ==> r == Ok(None)
    ensures k in o ==> (r.Ok? <==> o[k].JNull? || o[k].JStr?)
  {
    if k !in o then Ok(None)
    else match o[k]
      case JNull => Ok(None)
      case JStr(s) => Ok(Some(s))
      case _ => Err(InvalidFields)
  }

  /** `dict[str, Any]`, with `default_factory=dict` for the producer. */
  function ReqDict(o: map<string, JsonValue>, k: string, mode: Mode): (r: Result<map<string, JsonValue>, ContractError>)
    ensures k in o ==> (r.Ok? <==> o[k].JObj?) && (r.Ok? ==> o[k] == JObj(r.value))
    ensures k !in o ==> (r.Ok? <==> mode == Producer) && (r.Ok? ==> r.value == map[])
  {
    if k in o then (if o[k].JObj? then Ok(o[k].fields) else Err(InvalidFields))
    else if mode == Producer then Ok(map[]) else Err(InvalidFields)
  }

  function ParseFingerprint(v: JsonValue, mode: Mode): (r: Result<RunFingerprint, ContractError>)
    ensures r.Ok? ==> v.JObj? && ValidFingerprint(r.value) && ExtraAllowed(v.fields, FingerprintKeys, mode)
  {
    if !v.JObj? || !ExtraAllowed(v.fields, FingerprintKeys, mode) then Err(InvalidFields)
    else
      var o := v.fields;
      var a :- ReqStr(o, "config_sha256");
      var b :- ReqStr(o, "bank_sha256");
      var c :- ReqStr(o, "expected_sha256");
      var mask :- ReqBool(o, "mask", None);
      var ocr :- ReqBool(o, "permitir_ocr", None);
      var miv :- ReqStr(o, "modelo_interno_version");
      var ver :- ReqStr(o, "version");
      Ok(RunFingerprint(a, b, c, mask, ocr, miv, ver))
  }

  function ParseMatch(v: JsonValue, mode: Mode): (r: Result<RunMatch, ContractError>)
    ensures r.Ok? ==> v.JObj? && ValidMatch(r.value) && ExtraAllowed(v.fields, MatchKeys, mode)
    ensures r.Ok? && mode == Consumer ==> "bloqueado_por_confianza" in v.fields
    ensures r.Ok? && "bloqueado_por_confianza" !in v.fields ==> !r.value.bloqueado
  {
    if !v.JObj? || !ExtraAllowed(v.fields, MatchKeys, mode) then Err(InvalidFields)
    else
      var o := v.fields;
      var id :- ReqStr(o, "id");
      var estado :- ReqStr(o, "estado");
      var score :- ReqNumber(o, "score");
      var regla :- ReqStr(o, "regla");
      var expl :- ReqStr(o, "explicacion");
      var txs :- ReqStrList(o, "transacciones_bancarias");
      var exps :- ReqStrList(o, "movimientos_esperados");
      var bloq :- ReqBool(o, "bloqueado_por_confianza", if mode == Producer then Some(false) else None);
      Ok(RunMatch(id, estado, score, regla, expl, txs, exps, bloq))
  }

  function ParseHallazgo(v: JsonValue, mode: Mode): (r: Result<RunHallazgo, ContractError>)
    ensures r.Ok? ==> v.JObj? && ValidHallazgo(r.value) && ExtraAllowed(v.fields, HallazgoKeys, mode)
    ensures r.Ok? && mode == Consumer ==> "detalles" in v.fields
    ensures r.Ok? && "detalles" !in v.fields ==> r.value.detalles == map[]
    ensures r.Ok? && "entidad_id" !in v.fields ==> r.value.entidadId == None
  {
    if !v.JObj? || !ExtraAllowed(v.fields, HallazgoKeys, mode) then Err(InvalidFields)
    else
      var o := v.fields;
      var id :- ReqStr(o, "id");
      var sev :- ReqStr(o, "severidad");
      var tipo :- ReqStr(o, "tipo");
      var msg :- ReqStr(o, "mensaje");
      var ent :- ReqStr(o, "entidad");
      if ent !in Entidades then Err(InvalidFields)
      else
        var eid :- OptStr(o, "entidad_id");
        var det :- ReqDict(o, "detalles", mode);
        Ok(RunHallazgo(id, sev, tipo, msg, ent, eid, det))
  }

  function ParseMatches(items: seq<JsonValue>, mode: Mode): (r: Result<seq<RunMatch>, ContractError>)
    ensures r.Ok? ==> |r.value| == |items|
    ensures r.Ok? ==> forall i | 0 <= i < |items| :: ParseMatch(items[i], mode) == Ok(r.value[i])
    ensures r.Ok? <==> forall i | 0 <= i < |items| :: ParseMatch(items[i], mode).Ok?
  {
    if items == [] then Ok([])
    else
      var m :- ParseMatch(items[0], mode);
      var rest :- ParseMatches(items[1..], mode);
      Ok([m] + rest)
  }

  function ParseHallazgos(items: seq<JsonValue>, mode: Mode): (r: Result<seq<RunHallazgo>, ContractError>)
    ensures r.Ok? ==> |r.value| == |items|
    ensures r.Ok? ==> forall i | 0 <= i < |items| :: ParseHallazgo(items[i], mode) == Ok(r.value[i])
    ensures r.Ok? <==> forall i | 0 <= i < |items| :: ParseHallazgo(items[i], mode).Ok?
  {
    if items == [] then Ok([])
    else
      var h :- ParseHallazgo(items[0], mode);
      var rest :- ParseHallazgos(items[1..], mode);
      Ok([h] + rest)
  }

  /** `RunPayload.model_validate(payload)` up to, not including, the after-validator
      (or `RunPayloadConsumer.model_validate(payload)`). */
  function ParseFields(p: map<string, JsonValue>, mode: Mode): (r: Result<RunPayload, ContractError>)
    ensures r.Ok? ==> ValidPayload(r.value) && ExtraAllowed(p, PayloadKeys, mode)
  {
    if !ExtraAllowed(p, PayloadKeys, mode) then Err(InvalidFields)
    else
      var sv :- ReqStr(p, "schema_version");
      var rid :- ReqStr(p, "run_id");
      if "fingerprint" !in p || "matches" !in p || "hallazgos" !in p then Err(InvalidFields)
      else if !p["matches"].JArr? || !p["hallazgos"].JArr? then Err(InvalidFields)
      else
        var fp :- ParseFingerprint(p["fingerprint"], mode);
        var ms :- ParseMatches(p["matches"].items, mode);
        var hs :- ParseHallazgos(p["hallazgos"].items, mode);
        Ok(RunPayload(sv, rid, fp, ms, hs))
  }

  // ---------------------------------------------------------------------------
  // The match invariant: a bank or expected id in at most one match

  /** One pass of the inner loop: each id is recorded with the match id, and an id already
      recorded with a different match id stops the scan. */
  function ScanIds(ids: seq<string>, mid: string, seen: map<string, string>): Result<map<string, string>, string>
  {
    if ids == [] then Ok(seen)
    else if ids[0] in seen && seen[ids[0]] != mid then Err(ids[0])
    else ScanIds(ids[1..], mid, seen[ids[0] := mid])
  }

  /** The outer loop over the matches, bank ids before expected ids within each match. */
  function CheckFrom(ms: seq<RunMatch>, seenTx: map<string, string>, seenExp: map<string, string>): Outcome<ContractError>
  {
    if ms == [] then Pass
    else
      match ScanIds(ms[0].transacciones, ms[0].id, seenTx)
      case Err(tx) => Fail(TxInMultipleMatches(tx))
      case Ok(tx') =>
        match ScanIds(ms[0].movimientos, ms[0].id, seenExp)
        case Err(exp) => Fail(ExpInMultipleMatches(exp))
        case Ok(exp') => CheckFrom(ms[1..], tx', exp')
  }

  /** The invariant check of `_validate_schema_version_and_invariants`, starting from
      empty `seen_tx` and `seen_exp`. */
  function MatchInvariant(ms: seq<RunMatch>): Outcome<ContractError> {
    CheckFrom(ms, map[], map[])
  }

  /** The loops of `_validate_schema_version_and_invariants` over the matches. */
  method CheckMatchInvariant(ms: seq<RunMatch>) returns (r: Outcome<ContractError>)
    ensures r == MatchInvariant(ms)
  {
    var seenTx: map<string, string> := map[];
    var seenExp: map<string, string> := map[];
    var i := 0;
    while i < |ms|
      invariant 0 <= i <= |ms|
      invariant MatchInvariant(ms) == CheckFrom(ms[i..], seenTx, seenExp)
    {
      var m := ms[i];
      assert ms[i..][0] == m && ms[i..][1..] == ms[i + 1..];
      var tx0 := seenTx;
      var j := 0;
      while j < |m.transacciones|
        invariant 0 <= j <= |m.transacciones|
        invariant ScanIds(m.transacciones, m.id, tx0) == ScanIds(m.transacciones[j..], m.id, seenTx)
      {
        var tx := m.transacciones[j];
        assert m.transacciones[j..][1..] == m.transacciones[j + 1..];
        if tx in seenTx && seenTx[tx] != m.id {
          return Fail(TxInMultipleMatches(tx));
        }
        seenTx := seenTx[tx := m.id];
        j := j + 1;
      }
      var exp0 := seenExp;
      j := 0;
      while j < |m.movimientos|
        invariant 0 <= j <= |m.movimientos|
        invariant ScanIds(m.movimientos, m.id, exp0) == ScanIds(m.movimientos[j..], m.id, seenExp)
      {
        var exp := m.movimientos[j];
        assert m.movimientos[j..][1..] == m.movimientos[j + 1..];
        if exp in seenExp && seenExp[exp] != m.id {
          return Fail(ExpInMultipleMatches(exp));
        }
        seenExp := seenExp[exp := m.id];
        j := j + 1;
      }
      i := i + 1;
    }
    return Pass;
  }

  // ---------------------------------------------------------------------------
  // The invariant, stated declaratively

  /** A match id with the ids it lists. */
  type Group = (string, seq<string>)

  function TxGroups(ms: seq<RunMatch>): (g: seq<Group>)
    ensures |g| == |ms| && forall i | 0 <= i < |ms| :: g[i] == (ms[i].id, ms[i].transacciones)
  {
    seq(|ms|, i requires 0 <= i < |ms| => (ms[i].id, ms[i].transacciones))
  }

  function ExpGroups(ms: seq<RunMatch>): (g: seq<Group>)
    ensures |g| == |ms| && forall i | 0 <= i < |ms| :: g[i] == (ms[i].id, ms[i].movimientos)
  {
    seq(|ms|, i requires 0 <= i < |ms| => (ms[i].id, ms[i].movimientos))
  }

  /** Every id is listed only under one match id (possibly in several entries, possibly
      repeated inside one entry). */
  predicate Exclusive(gs: seq<Group>) {
    forall i, j, t | 0 <= i < |gs| && 0 <= j < |gs| && t in gs[i].1 && t in gs[j].1 :: gs[i].0 == gs[j].0
  }

  /** The groups agree with each other and with the ids already seen. */
  predicate Consistent(gs: seq<Group>, seen: map<string, string>) {
    (forall i, t | 0 <= i < |gs| && t in gs[i].1 && t in seen :: seen[t] == gs[i].0) && Exclusive(gs)
  }

  /** The map after recording every id of `ids` with `mid`. */
  function Record(seen: map<string, string>, ids: seq<string>, mid: string): (r: map<string, string>)
    ensures forall t :: t in r <==> t in seen || t in ids
    ensures forall t | t in r :: r[t] == if t in ids then mid else seen[t]
  {
    map t | t in seen.Keys + (set x | x in ids) :: if t in ids then mid else seen[t]
  }

  /** Every id of `ids` already seen was seen with `mid`. */
  predicate AgreesWith(ids: seq<string>, mid: string, seen: map<string, string>) {
    forall t | t in ids && t in seen :: seen[t] == mid
  }

  lemma AgreesWithCons(ids: seq<string>, mid: string, seen: map<string, string>)
    requires ids != [] && (ids[0] !in seen || seen[ids[0]] == mid)
    ensures AgreesWith(ids, mid, seen) <==> AgreesWith(ids[1..], mid, seen[ids[0] := mid])
  {
    var t0 := ids[0];
    var seen' := seen[t0 := mid];
    assert forall t | t in ids :: t == t0 || t in ids[1..];
    assert forall t | t in ids[1..] :: t in ids;
    if AgreesWith(ids, mid, seen) {
      forall t | t in ids[1..] && t in seen' ensures seen'[t] == mid {
        if t != t0 {
          assert t in ids && t in seen;
        }
      }
    }
    if AgreesWith(ids[1..], mid, seen') {
      forall t | t in ids && t in seen ensures seen[t] == mid {
        if t != t0 {
          assert t in ids[1..] && t in seen';
        }
      }
    }
  }

  lemma RecordCons(ids: seq<string>, mid: string, seen: map<string, string>)
    requires ids != []
    ensures Record(seen[ids[0] := mid], ids[1..], mid) == Record(seen, ids, mid)
  {
    var t0 := ids[0];
    var l := Record(seen[t0 := mid], ids[1..], mid);
    var r := Record(seen, ids, mid);
    forall t ensures (t in l <==> t in r) && (t in l ==> l[t] == r[t]) {
      InCons(ids, t);
    }
    assert l.Keys == r.Keys;
  }

  lemma InCons(ids: seq<string>, t: string)
    requires ids != []
    ensures t in ids <==> t == ids[0] || t in ids[1..]
  {
    assert ids == [ids[0]] + ids[1..];
  }

  /** The inner loop fails exactly on an id seen with another match id, and otherwise
      records every id with this match id. */
  lemma {:induction false} ScanIdsSpec(ids: seq<string>, mid: string, seen: map<string, string>)
    ensures ScanIds(ids, mid, seen).Ok? <==> AgreesWith(ids, mid, seen)
    ensures ScanIds(ids, mid, seen).Ok? ==> ScanIds(ids, mid, seen).value == Record(seen, ids, mid)
  {
    if ids == [] {
      assert Record(seen, ids, mid) == seen;
    } else if ids[0] in seen && seen[ids[0]] != mid {
      assert !AgreesWith(ids, mid, seen);
    } else {
      ScanIdsSpec(ids[1..], mid, seen[ids[0] := mid]);
      AgreesWithCons(ids, mid, seen);
      RecordCons(ids, mid, seen);
    }
  }

  lemma ConsistentConsForward(g0: Group, gs: seq<Group>, seen: map<string, string>)
    requires Consistent([g0] + gs, seen)
    ensures AgreesWith(g0.1, g0.0, seen) && Consistent(gs, Record(seen, g0.1, g0.0))
  {
    var all := [g0] + gs;
    var seen' := Record(seen, g0.1, g0.0);
    assert all[0] == g0;
    forall i, t | 0 <= i < |gs| && t in gs[i].1 && t in seen'
      ensures seen'[t] == gs[i].0
    {
      assert all[i + 1] == gs[i];
      if t in g0.1 {
        assert all[0].0 == all[i + 1].0;
      }
    }
    forall i, j, t | 0 <= i < |gs| && 0 <= j < |gs| && t in gs[i].1 && t in gs[j].1
      ensures gs[i].0 == gs[j].0
    {
      assert all[i + 1] == gs[i] && all[j + 1] == gs[j];
    }
  }

  lemma ConsistentConsBackward(g0: Group, gs: seq<Group>, seen: map<string, string>)
    requires AgreesWith(g0.1, g0.0, seen) && Consistent(gs, Record(seen, g0.1, g0.0))
    ensures Consistent([g0] + gs, seen)
  {
    var all := [g0] + gs;
    var seen' := Record(seen, g0.1, g0.0);
    assert all[0] == g0;
    forall i, t | 0 <= i < |all| && t in all[i].1 && t in seen
      ensures seen[t] == all[i].0
    {
      if i > 0 {
        assert all[i] == gs[i - 1];
        assert t in seen';
      }
    }
    forall i, j, t | 0 <= i < |all| && 0 <= j < |all| && t in all[i].1 && t in all[j].1
      ensures all[i].0 == all[j].0
    {
      if i > 0 && j > 0 {
        assert all[i] == gs[i - 1] && all[j] == gs[j - 1];
      } else if j > 0 {
        assert all[j] == gs[j - 1];
        assert t in seen' && seen'[t] == g0.0;
      } else if i > 0 {
        assert all[i] == gs[i - 1];
        assert t in seen' && seen'[t] == g0.0;
      }
    }
  }

  lemma ConsistentCons(g0: Group, gs: seq<Group>, seen: map<string, string>)
    ensures Consistent([g0] + gs, seen) <==>
      AgreesWith(g0.1, g0.0, seen) && Consistent(gs, Record(seen, g0.1, g0.0))
  {
    if Consistent([g0] + gs, seen) {
      ConsistentConsForward(g0, gs, seen);
    }
    if AgreesWith(g0.1, g0.0, seen) && Consistent(gs, Record(seen, g0.1, g0.0)) {
      ConsistentConsBackward(g0, gs, seen);
    }
  }

  lemma {:induction false} CheckFromSpec(ms: seq<RunMatch>, seenTx: map<string, string>, seenExp: map<string, string>)
    ensures CheckFrom(ms, seenTx, seenExp).Pass? <==>
      Consistent(TxGroups(ms), seenTx) && Consistent(ExpGroups(ms), seenExp)
  {
    if ms != [] {
      var m := ms[0];
      assert TxGroups(ms) == [(m.id, m.transacciones)] + TxGroups(ms[1..]);
      assert ExpGroups(ms) == [(m.id, m.movimientos)] + ExpGroups(ms[1..]);
      ConsistentCons((m.id, m.transacciones), TxGroups(ms[1..]), seenTx);
      ConsistentCons((m.id, m.movimientos), ExpGroups(ms[1..]), seenExp);
      ScanIdsSpec(m.transacciones, m.id, seenTx);
      ScanIdsSpec(m.movimientos, m.id, seenExp);
      CheckFromSpec(ms[1..], Record(seenTx, m.transacciones, m.id), Record(seenExp, m.movimientos, m.id));
    }
  }

  /** The invariant check passes exactly when every bank id, and every expected id, is
      listed only under one match id. */
  lemma MatchInvariantIff(ms: seq<RunMatch>)
    ensures MatchInvariant(ms).Pass? <==> Exclusive(TxGroups(ms)) && Exclusive(ExpGroups(ms))
  {
    CheckFromSpec(ms, map[], map[]);
  }

  // ---------------------------------------------------------------------------
  // Dump (`model_dump(mode="json")`)

  function DumpFingerprint(f: RunFingerprint): (r: JsonValue)
    ensures r.JObj? && r.fields.Keys == FingerprintKeys
  {
    JObj(map[
      "config_sha256" := JStr(f.configSha256), "bank_sha256" := JStr(f.bankSha256),
      "expected_sha256" := JStr(f.expectedSha256), "mask" := JBool(f.mask),
      "permitir_ocr" := JBool(f.permitirOcr),
      "modelo_interno_version" := JStr(f.modeloInternoVersion), "version" := JStr(f.version)])
  }

  function StrArr(ss: seq<string>): (r: JsonValue)
    ensures r.JArr? && |r.items| == |ss| && forall i | 0 <= i < |ss| :: r.items[i] == JStr(ss[i])
  {
    JArr(seq(|ss|, i requires 0 <= i < |ss| => JStr(ss[i])))
  }

  function DumpMatch(m: RunMatch): (r: JsonValue)
    ensures r.JObj? && r.fields.Keys == MatchKeys
  {
    JObj(map[
      "id" := JStr(m.id), "estado" := JStr(m.estado), "score" := m.score,
      "regla" := JStr(m.regla), "explicacion" := JStr(m.explicacion),
      "transacciones_bancarias" := StrArr(m.transacciones),
      "movimientos_esperados" := StrArr(m.movimientos),
      "bloqueado_por_confianza" := JBool(m.bloqueado)])
  }

  function DumpHallazgo(h: RunHallazgo): (r: JsonValue)
    ensures r.JObj? && r.fields.Keys == HallazgoKeys
  {
    JObj(map[
      "id" := JStr(h.id), "severidad" := JStr(h.severidad), "tipo" := JStr(h.tipo),
      "mensaje" := JStr(h.mensaje), "entidad" := JStr(h.entidad),
      "entidad_id" := (if h.entidadId.Some? then JStr(h.entidadId.value) else JNull),
      "detalles" := JObj(h.detalles)])
  }

  function DumpPayload(p: RunPayload): (r: map<string, JsonValue>)
    ensures r.Keys == PayloadKeys
  {
    map[
      "schema_version" := JStr(p.schemaVersion), "run_id" := JStr(p.runId),
      "fingerprint" := DumpFingerprint(p.fingerprint),
      "matches" := JArr(seq(|p.matches|, i requires 0 <= i < |p.matches| => DumpMatch(p.matches[i]))),
      "hallazgos" := JArr(seq(|p.hallazgos|, i requires 0 <= i < |p.hallazgos| => DumpHallazgo(p.hallazgos[i])))]
  }

  // ---------------------------------------------------------------------------
  // The validators

  /** `validate_run_payload`: strict field validation, then the after-validator (exact
      version, SemVer, match invariant), then the dump. */
  function ValidateRunPayload(p: map<string, JsonValue>): Result<map<string, JsonValue>, ContractError> {
    var obj :- ParseFields(p, Producer);
    if obj.schemaVersion != RunJsonSchemaVersion then Err(UnexpectedSchemaVersion(obj.schemaVersion))
    else if Semver.ParseSemver(obj.schemaVersion).None? then Err(InvalidSemver(obj.schemaVersion))
    else match MatchInvariant(obj.matches)
      case Fail(e) => Err(e)
      case Pass => Ok(DumpPayload(obj))
  }

  /** The major `accept_major=None` stands for: that of `RUN_JSON_SCHEMA_VERSION`. */
  function DefaultMajor(): (r: nat)
    ensures r == 1
  {
    Semver.ParseSchemaVersion();
    Semver.ParseSemver(RunJsonSchemaVersion).value.major
  }

  /** `validate_run_payload_for_consumer`: lenient field validation, SemVer with a major
      equal to `accept_major`, then the dump. The match invariant is not checked. */
  function ValidateRunPayloadForConsumer(p: map<string, JsonValue>, acceptMajor: Option<int>): Result<map<string, JsonValue>, ContractError> {
    var obj :- ParseFields(p, Consumer);
    match Semver.ParseSemver(obj.schemaVersion)
    case None => Err(InvalidSemver(obj.schemaVersion))
    case Some(t) =>
      var want := if acceptMajor.Some? then acceptMajor.value else DefaultMajor();
      if t.major != want then Err(IncompatibleMajor(obj.schemaVersion, t.major, want))
      else Ok(DumpPayload(obj))
  }
}
