/** The XML adapter: after the size guard, the document defusedxml parses is searched for
    its `<movimiento>` elements; after the count guard and one audit event, each element
    becomes a bank transaction numbered by its 1-based position. The bank and the masked
    account come from the root's attributes and are shared by every record. Reading and
    parsing the file are not modelled: the loader receives the file's size and what the
    parser gave: the tree, the ParseError's text, or one of defusedxml's refusals, which
    the loader does not catch. */
module XmlAdapter {
  import opened Common
  import opened PyStr
  import opened Calendar
  import opened Json
  import opened Parsing
  import opened Models
  import opened Errors
  import opened AuditLog
  import opened Hashing
  import opened Limits
  import Masking
  import CliErrors
  import Pipeline

  // ---------------------------------------------------------------------------
  // The parsed document

  /** An ElementTree element. `text` is the element's leading text, with a missing text
      (None) as the empty string: the adapter treats both alike. */
  datatype Element = Element(tag: string, attrib: map<string, string>, text: string, children: seq<Element>)

  /** The exceptions defusedxml's `parse` raises, with its default settings, for a document
      that declares entities, refers to an external resource, or uses a construct it does
      not support. None of them is an `ET.ParseError`. */
  datatype Refusal = EntitiesForbidden | ExternalReferenceForbidden | NotSupportedError

  function RefusalName(k: Refusal): (r: string)
    ensures r != "ErrorIngestion" && r != "ParseError"
  {
    match k
    case EntitiesForbidden => "EntitiesForbidden"
    case ExternalReferenceForbidden => "ExternalReferenceForbidden"
    case NotSupportedError => "NotSupportedError"
  }

  /** What defusedxml's `ET.parse` gives: the root element, the text of the ParseError it
      raises, or one of its refusals with the exception's text. */
  datatype XmlDoc = Malformed(reason: string) | Refused(refusal: Refusal, message: string) | Document(root: Element)

  /** The position of the first child with `tag` from index `i` on (`node.find(tag)`). */
  function FirstChild(cs: seq<Element>, tag: string, i: nat): (r: Option<nat>)
    requires i <= |cs|
    ensures r.Some? ==> i <= r.value < |cs| && cs[r.value].tag == tag && forall j | i <= j < r.value :: cs[j].tag != tag
    ensures r.None? ==> forall j | i <= j < |cs| :: cs[j].tag != tag
    decreases |cs| - i
  {
    if i == |cs| then None
    else if cs[i].tag == tag then Some(i)
    else FirstChild(cs, tag, i + 1)
  }

  /** `_txt`: the normalised text of the first child with `tag`, or "" without one. */
  function Txt(node: Element, tag: string): (r: string)
    ensures FirstChild(node.children, tag, 0).None? ==> r == []
  {
    match FirstChild(node.children, tag, 0)
    case None => ""
    case Some(i) => NormalizarTexto(node.children[i].text)
  }

  /** Every element below the given ones, in document order (`Element.iter()` without the
      starting element). */
  function Descendants(cs: seq<Element>): (r: seq<Element>)
    ensures |r| >= |cs|
    decreases cs
  {
    if cs == [] then []
    else [cs[0]] + Descendants(cs[0].children) + Descendants(cs[1..])
  }

  /** The elements of `es` with `tag`, in order. */
  function WithTag(es: seq<Element>, tag: string): (r: seq<Element>)
    ensures |r| <= |es|
    ensures forall j | 0 <= j < |r| :: r[j].tag == tag && r[j] in es
  {
    if es == [] then []
    else (if es[0].tag == tag then [es[0]] else []) + WithTag(es[1..], tag)
  }

  /** `root.findall(".//tag")`: every element strictly below the root with `tag`, in
      document order. */
  function FindAll(root: Element, tag: string): seq<Element> {
    WithTag(Descendants(root.children), tag)
  }

  /** Every element of `es` with `tag` is kept. */
  lemma {:induction false} WithTagComplete(es: seq<Element>, tag: string, e: Element)
    requires e in es && e.tag == tag
    ensures e in WithTag(es, tag)
  {
    if es[0] != e {
      assert e in es[1..];
      WithTagComplete(es[1..], tag, e);
    }
  }

  /** A flat document, whose root's children have no children, yields exactly its
      children with the tag, in order. */
  lemma {:induction false} FindAllFlat(cs: seq<Element>, tag: string)
    requires forall j | 0 <= j < |cs| :: cs[j].children == []
    ensures WithTag(Descendants(cs), tag) == WithTag(cs, tag)
  {
    if cs != [] {
      FindAllFlat(cs[1..], tag);
      assert Descendants(cs) == [cs[0]] + Descendants(cs[1..]);
      assert ([cs[0]] + Descendants(cs[1..]))[1..] == Descendants(cs[1..]);
    }
  }

  /** Every `<movimiento>` the root has as a direct child is found. */
  lemma FindAllFindsChildren(root: Element, tag: string, i: nat)
    requires i < |root.children| && root.children[i].tag == tag
    ensures root.children[i] in FindAll(root, tag)
  {
    DescendantsHoldChildren(root.children, i);
    WithTagComplete(Descendants(root.children), tag, root.children[i]);
  }

  lemma {:induction false} DescendantsHoldChildren(cs: seq<Element>, i: nat)
    requires i < |cs|
    ensures cs[i] in Descendants(cs)
  {
    if i > 0 {
      DescendantsHoldChildren(cs[1..], i - 1);
    }
  }

  // ---------------------------------------------------------------------------
  // Constants

  const XmlLabel: string := "XML banco"
  const SizeHints: LimitHints := LimitHints("limites_ingesta.max_input_bytes", "--max-input-bytes")
  const CountHints: LimitHints := LimitHints("limites_ingesta.max_xml_movimientos", "--max-xml-movimientos")
  const CountName: string := "max_xml_movimientos"
  const LoadedMessage: string := "XML cartola cargado"
  const MovTag: string := "movimiento"
  const TxPrefix: string := "TX"

  // ---------------------------------------------------------------------------
  // Fields

  /** `_campo`: score 0.95, level alta, origin xml. */
  function XmlCampo(v: Valor): (c: CampoConConfianza)
    ensures c.valor == v && ValidMetadata(c.confianza)
  {
    Campo(v, MetadataConfianza(0.95, Alta, Xml, None))
  }

  /** Every field of the record carries `_campo`'s metadata. */
  predicate XmlConfidence(c: CampoConConfianza) {
    c.confianza == MetadataConfianza(0.95, Alta, Xml, None)
  }

  /** The `banco` attribute, normalised; None when empty. */
  function Banco(root: Element): (r: Option<string>)
    ensures r.Some? ==> r.value != []
  {
    var b := NormalizarTexto(if "banco" in root.attrib then root.attrib["banco"] else "");
    if b != [] then Some(b) else None
  }

  /** The `cuenta` attribute, normalised and masked; None when empty. */
  function CuentaMask(root: Element): (r: Option<string>)
    ensures r.Some? ==> Masking.Exposed(r.value) <= 4
  {
    var cuentaRaw := NormalizarTexto(if "cuenta" in root.attrib then root.attrib["cuenta"] else "");
    Masking.MaskingExposesLittle(cuentaRaw);
    if cuentaRaw != [] then Some(Masking.EnmascararCuenta(cuentaRaw)) else None
  }

  // ---------------------------------------------------------------------------
  // One movimiento

  /** What the `try` block of a movimiento reads. */
  datatype MovParsed = MovParsed(fechaOp: PyDate, fechaCt: Option<PyDate>, monto: int)

  /** `parse_fecha_chile`, failing with the text of ErrorParseo. */
  function FechaOf(t: string): (r: Result<PyDate, string>)
    ensures r.Ok? <==> ParseFecha(t).Ok?
  {
    match ParseFecha(t)
    case Err(e) => Err(ParseErrorMessage(e))
    case Ok(d) => Ok(d)
  }

  /** `parse_monto_clp`, failing with the text of ErrorParseo. */
  function MontoOf(t: string): (r: Result<int, string>)
    ensures r.Ok? <==> ParseMontoClp(t).Ok?
  {
    match ParseMontoClp(t)
    case Err(e) => Err(ParseErrorMessage(e))
    case Ok(m) => Ok(m)
  }

  /** The `try` block: the operation date, the accounting date when its text is not
      empty, the amount, in that order. */
  function ParseMov(m: Element): (r: Result<MovParsed, string>)
    ensures r.Ok? ==> (r.value.fechaCt.None? <==> Txt(m, "fecha_contable") == [])
  {
    var fo :- FechaOf(Txt(m, "fecha_operacion"));
    var ctTxt := Txt(m, "fecha_contable");
    var fc :- if ctTxt != [] then (var d :- FechaOf(ctTxt); Ok(Some(d))) else Ok(None);
    var monto :- MontoOf(Txt(m, "monto"));
    Ok(MovParsed(fo, fc, monto))
  }

  /** The ErrorIngestion a movimiento whose date or amount cannot be read raises. */
  function MovInvalido(idx: int, msg: string): Exc {
    Ingestion("Movimiento XML " + IntToString(idx) + ": parseo invalido: " + msg)
  }

  /** The currency: the element's text, or the default when it is empty, upper-cased. */
  function MonedaOf(m: Element, monedaDefault: string): (r: string)
    ensures Txt(m, "moneda") == [] ==> r == Upper(monedaDefault)
    ensures Txt(m, "moneda") != [] ==> r == Upper(Txt(m, "moneda"))
  {
    var t := Txt(m, "moneda");
    Upper(if t != [] then t else monedaDefault)
  }

  /** The reference: normalised when the element's text is not empty. */
  function RefOf(m: Element): (r: string)
    ensures forall i | 0 <= i < |r| :: !IsLowerAscii(r[i])
    ensures Txt(m, "referencia") == [] ==> r == []
  {
    var refRaw := Txt(m, "referencia");
    if refRaw != [] then NormalizarReferencia(refRaw) else ""
  }

  function DataNorm(p: MovParsed, moneda: string, desc: string, ref: string): map<string, JsonValue> {
    map[
      "fecha_operacion" := JStr(IsoFormat(p.fechaOp)),
      "fecha_contable" := (if p.fechaCt.Some? then JStr(IsoFormat(p.fechaCt.value)) else JNull),
      "monto" := JStr(IntToString(p.monto)),
      "moneda" := JStr(moneda),
      "descripcion" := JStr(desc),
      "referencia" := (if ref != [] then JStr(ref) else JNull)]
  }

  /** What `_id_tx` hashes: the file's name, the position and the normalised data. */
  function TxKey(path: string, idx: int, data: map<string, JsonValue>): JsonValue {
    JObj(map["file" := JStr(PathName(path)), "idx" := JInt(idx), "data" := JObj(data)])
  }

  /** `_id_tx`: "TX-" and the first 12 characters of the stable hash of the file's name,
      the position and the normalised data. */
  function IdTx(sha256: string -> Digest, path: string, idx: int, data: map<string, JsonValue>): (r: string)
    ensures |r| == 15 && StartsWith(r, TxPrefix + "-")
  {
    TxPrefix + "-" + DigestPrefix(Sha256JsonEstable(sha256, TxKey(path, idx, data)), 12)
  }

  /** The transaction built from a movimiento's values, before pydantic validates it. */
  function AssembleTx(id: string, banco: Option<string>, cuentaMask: Option<string>, p: MovParsed,
                      moneda: string, desc: string, ref: string, archivo: string, idx: int): (t: TransaccionBancaria)
    requires id != []
    ensures ValidTransaccion(t) <==> IsMoneda(moneda) && archivo != []
    ensures t.id == id && t.banco == banco && t.cuentaMask == cuentaMask && t.moneda == moneda
    ensures t.origen == Xml && !t.bloquea && t.motivo.None?
    ensures t.filaOrigen == Some(idx) && t.archivoOrigen == archivo
    ensures t.fechaOperacion.valor == VDate(p.fechaOp) && t.monto.valor == VDecimal(p.monto) && t.descripcion.valor == VStr(desc)
    ensures XmlConfidence(t.fechaOperacion) && XmlConfidence(t.monto) && XmlConfidence(t.descripcion)
    ensures t.fechaContable.Some? <==> p.fechaCt.Some?
    ensures t.fechaContable.Some? ==> XmlConfidence(t.fechaContable.value)
    ensures t.referencia.Some? <==> ref != []
    ensures t.referencia.Some? ==> XmlConfidence(t.referencia.value) && t.referencia.value.valor == VStr(ref)
  {
    TransaccionBancaria(
      id, cuentaMask, banco, false, None,
      XmlCampo(VDate(p.fechaOp)),
      if p.fechaCt.Some? then Some(XmlCampo(VDate(p.fechaCt.value))) else None,
      XmlCampo(VDecimal(p.monto)),
      moneda,
      XmlCampo(VStr(desc)),
      if ref != [] then Some(XmlCampo(VStr(ref))) else None,
      archivo, Xml, Some(idx))
  }

  /** The transaction movimiento `idx` describes, before pydantic validates it. */
  function MovTx(sha256: string -> Digest, path: string, monedaDefault: string, root: Element, idx: int, m: Element, p: MovParsed): (t: TransaccionBancaria)
    ensures ValidTransaccion(t) <==> IsMoneda(MonedaOf(m, monedaDefault)) && PathName(path) != []
    ensures StartsWith(t.id, TxPrefix + "-") && |t.id| == 15
    ensures t.origen == Xml && !t.bloquea && t.banco == Banco(root) && t.cuentaMask == CuentaMask(root)
    ensures t.filaOrigen == Some(idx) && t.archivoOrigen == PathName(path) && t.moneda == MonedaOf(m, monedaDefault)
    ensures XmlConfidence(t.fechaOperacion) && XmlConfidence(t.monto) && XmlConfidence(t.descripcion)
    ensures t.fechaContable.Some? ==> XmlConfidence(t.fechaContable.value)
    ensures t.referencia.Some? ==> XmlConfidence(t.referencia.value)
    ensures t.referencia.None? <==> RefOf(m) == []
    ensures t.fechaContable.None? <==> p.fechaCt.None?
  {
    var moneda := MonedaOf(m, monedaDefault);
    var desc := Txt(m, "descripcion");
    var ref := RefOf(m);
    var id := IdTx(sha256, path, idx, DataNorm(p, moneda, desc, ref));
    AssembleTx(id, Banco(root), CuentaMask(root), p, moneda, desc, ref, PathName(path), idx)
  }

  /** The record's pydantic validation: it fails exactly when the currency is not three
      capitals or the file has no name. */
  function MovValidate(sha256: string -> Digest, path: string, monedaDefault: string, root: Element, idx: int, m: Element, p: MovParsed): (r: Result<TransaccionBancaria, Exc>)
    ensures r.Ok? <==> IsMoneda(MonedaOf(m, monedaDefault)) && PathName(path) != []
    ensures r.Ok? ==> r.value == MovTx(sha256, path, monedaDefault, root, idx, m, p)
    ensures r.Err? ==> r.error.Validation?
  {
    match MakeTransaccion(MovTx(sha256, path, monedaDefault, root, idx, m, p))
    case Err(ve) => Err(Validation(ve))
    case Ok(t) => Ok(t)
  }

  /** One iteration of the loop once the `try` block has run: its failure becomes
      ErrorIngestion naming the position, then the record is validated. */
  function MovStep(sha256: string -> Digest, path: string, monedaDefault: string, root: Element, idx: int, m: Element, pm: Result<MovParsed, string>): (r: Result<TransaccionBancaria, Exc>)
    ensures pm.Err? ==> r == Err(MovInvalido(idx, pm.error))
    ensures pm.Ok? ==> (r.Ok? <==> IsMoneda(MonedaOf(m, monedaDefault)) && PathName(path) != [])
    ensures pm.Ok? && r.Err? ==> r.error.Validation?
  {
    match pm
    case Err(msg) => Err(MovInvalido(idx, msg))
    case Ok(p) => MovValidate(sha256, path, monedaDefault, root, idx, m, p)
  }

  /** One iteration of the loop: the `try` block, then the record. */
  function MovRecord(sha256: string -> Digest, path: string, monedaDefault: string, root: Element, idx: int, m: Element): (r: Result<TransaccionBancaria, Exc>) {
    MovStep(sha256, path, monedaDefault, root, idx, m, ParseMov(m))
  }

  /** A movimiento that gives a record gives a valid xml transaction numbered by its
      position, with the root's bank and account and `_campo`'s confidence. */
  lemma MovStepIsXml(sha256: string -> Digest, path: string, monedaDefault: string, root: Element, idx: int, m: Element, pm: Result<MovParsed, string>)
    ensures MovStep(sha256, path, monedaDefault, root, idx, m, pm).Ok? ==>
      XmlRecordOf(MovStep(sha256, path, monedaDefault, root, idx, m, pm).value, idx - 1, root, path)
  {
  }

  /** The function the loop applies to each movimiento and its position. */
  function MovFn(sha256: string -> Digest, path: string, monedaDefault: string, root: Element): (int, Element) -> Result<TransaccionBancaria, Exc> {
    (idx: int, m: Element) => MovRecord(sha256, path, monedaDefault, root, idx, m)
  }

  /** The outcome of every element from index `k` on, position `j` numbered `j + 1`. */
  function Outcomes<T>(f: (int, Element) -> Result<T, Exc>, movs: seq<Element>, k: nat): seq<Result<T, Exc>>
    requires k <= |movs|
    decreases |movs| - k
  {
    if k == |movs| then []
    else [f(k + 1, movs[k])] + Outcomes(f, movs, k + 1)
  }

  /** Outcome `j` is the reading of element `k + j` under its own position. */
  lemma {:induction false} OutcomesAt<T>(f: (int, Element) -> Result<T, Exc>, movs: seq<Element>, k: nat)
    requires k <= |movs|
    ensures |Outcomes(f, movs, k)| == |movs| - k
    ensures forall j | 0 <= j < |movs| - k :: Outcomes(f, movs, k)[j] == f(k + j + 1, movs[k + j])
    decreases |movs| - k
  {
    if k < |movs| {
      OutcomesAt(f, movs, k + 1);
      var o := Outcomes(f, movs, k);
      var rest := Outcomes(f, movs, k + 1);
      assert o == [f(k + 1, movs[k])] + rest;
      forall j | 0 <= j < |movs| - k
        ensures o[j] == f(k + j + 1, movs[k + j])
      {
        if j > 0 {
          assert o[j] == rest[j - 1];
        }
      }
    }
  }

  /** What the loop gives from index `k` on: every record, or the first error. */
  function LoadFrom<T>(f: (int, Element) -> Result<T, Exc>, movs: seq<Element>, k: nat): Result<seq<T>, Exc>
    requires k <= |movs|
  {
    Collect(Outcomes(f, movs, k))
  }

  /** The `for idx, m in enumerate(movs, start=1)` loop: read each element with `f`, stop
      at the first error. */
  method LoadAll<T>(f: (int, Element) -> Result<T, Exc>, movs: seq<Element>) returns (r: Result<seq<T>, Exc>)
    ensures r == LoadFrom(f, movs, 0)
  {
    var out: seq<T> := [];
    var i := 0;
    assert LoadFrom(f, movs, 0).Ok? ==> out + LoadFrom(f, movs, 0).value == LoadFrom(f, movs, 0).value;
    while i < |movs|
      invariant 0 <= i <= |movs|
      invariant LoadFrom(f, movs, 0) == Prepend(out, LoadFrom(f, movs, i))
    {
      var t := f(i + 1, movs[i]);
      var rs := Outcomes(f, movs, i);
      assert rs == [t] + Outcomes(f, movs, i + 1);
      assert rs[1..] == Outcomes(f, movs, i + 1);
      if t.Err? {
        return Err(t.error);
      }
      var rest := LoadFrom(f, movs, i + 1);
      assert rest.Ok? ==> out + ([t.value] + rest.value) == (out + [t.value]) + rest.value;
      out := out + [t.value];
      i := i + 1;
    }
    assert out + [] == out;
    return Ok(out);
  }

  /** A successful loop keeps one record per element, the one `f` reads from it. */
  lemma OutcomesOk<T>(f: (int, Element) -> Result<T, Exc>, movs: seq<Element>)
    ensures LoadFrom(f, movs, 0).Ok? ==> |LoadFrom(f, movs, 0).value| == |movs|
    ensures LoadFrom(f, movs, 0).Ok? ==> forall j | 0 <= j < |movs| :: f(j + 1, movs[j]) == Ok(LoadFrom(f, movs, 0).value[j])
  {
    OutcomesAt(f, movs, 0);
    CollectOk(Outcomes(f, movs, 0));
  }

  /** A successful loop holds one record per element. */
  lemma OutcomesOkLength<T>(f: (int, Element) -> Result<T, Exc>, movs: seq<Element>, ts: seq<T>)
    requires LoadFrom(f, movs, 0) == Ok(ts)
    ensures |ts| == |movs|
  {
    OutcomesOk(f, movs);
  }

  /** Record `j` of a successful loop is what `f` reads from element `j`. */
  lemma OutcomesOkAt<T>(f: (int, Element) -> Result<T, Exc>, movs: seq<Element>, ts: seq<T>, j: int)
    requires LoadFrom(f, movs, 0) == Ok(ts) && 0 <= j < |movs|
    ensures |ts| == |movs| && f(j + 1, movs[j]) == Ok(ts[j])
  {
    OutcomesOk(f, movs);
  }

  /** When every record `f` gives satisfies `P` at its position, so does every record of
      a successful loop. */
  lemma OutcomesAll<T>(f: (int, Element) -> Result<T, Exc>, movs: seq<Element>, P: (T, int) -> bool)
    requires forall idx: int, m: Element | f(idx, m).Ok? :: P(f(idx, m).value, idx - 1)
    ensures LoadFrom(f, movs, 0).Ok? ==> |LoadFrom(f, movs, 0).value| == |movs|
    ensures LoadFrom(f, movs, 0).Ok? ==> forall j | 0 <= j < |movs| :: P(LoadFrom(f, movs, 0).value[j], j)
  {
    OutcomesOk(f, movs);
    if LoadFrom(f, movs, 0).Ok? {
      forall j | 0 <= j < |movs|
        ensures P(LoadFrom(f, movs, 0).value[j], j)
      {
        assert f(j + 1, movs[j]) == Ok(LoadFrom(f, movs, 0).value[j]);
      }
    }
  }

  /** Element `j` fails with `e` and every earlier one reads. */
  predicate FirstFailure<T>(f: (int, Element) -> Result<T, Exc>, movs: seq<Element>, j: int, e: Exc)
    requires 0 <= j < |movs|
  {
    f(j + 1, movs[j]) == Err(e) && forall i | 0 <= i < j :: f(i + 1, movs[i]).Ok?
  }

  /** A failed loop raises the error of its first failing element. */
  lemma OutcomesErr<T>(f: (int, Element) -> Result<T, Exc>, movs: seq<Element>)
    ensures LoadFrom(f, movs, 0).Err? ==> exists j | 0 <= j < |movs| :: FirstFailure(f, movs, j, LoadFrom(f, movs, 0).error)
  {
    var rs := Outcomes(f, movs, 0);
    OutcomesAt(f, movs, 0);
    CollectErr(rs);
    if Collect(rs).Err? {
      var j :| 0 <= j < |rs| && rs[j] == Err(Collect(rs).error) && forall i | 0 <= i < j :: rs[i].Ok?;
      forall i | 0 <= i < j
        ensures f(i + 1, movs[i]).Ok?
      {
        assert rs[i] == f(i + 1, movs[i]);
      }
      assert rs[j] == f(j + 1, movs[j]);
      assert FirstFailure(f, movs, j, Collect(rs).error);
    }
  }

  /** A record the loop's function gives is the xml record of its position. */
  lemma MovFnOk(sha256: string -> Digest, path: string, monedaDefault: string, root: Element, idx: int, m: Element, t: TransaccionBancaria)
    requires MovFn(sha256, path, monedaDefault, root)(idx, m) == Ok(t)
    ensures XmlRecordOf(t, idx - 1, root, path)
  {
    var pm := ParseMov(m);
    assert MovFn(sha256, path, monedaDefault, root)(idx, m) == MovStep(sha256, path, monedaDefault, root, idx, m, pm);
    MovStepIsXml(sha256, path, monedaDefault, root, idx, m, pm);
  }

  /** Every record of a successful loop is the record of its position. */
  lemma MovRecords(sha256: string -> Digest, path: string, monedaDefault: string, root: Element, movs: seq<Element>)
    ensures LoadFrom(MovFn(sha256, path, monedaDefault, root), movs, 0).Ok? ==>
      |LoadFrom(MovFn(sha256, path, monedaDefault, root), movs, 0).value| == |movs|
    ensures LoadFrom(MovFn(sha256, path, monedaDefault, root), movs, 0).Ok? ==>
      forall j | 0 <= j < |movs| :: XmlRecordOf(LoadFrom(MovFn(sha256, path, monedaDefault, root), movs, 0).value[j], j, root, path)
  {
    var f := MovFn(sha256, path, monedaDefault, root);
    var P := (t: TransaccionBancaria, j: int) => XmlRecordOf(t, j, root, path);
    forall idx: int, m: Element | f(idx, m).Ok?
      ensures P(f(idx, m).value, idx - 1)
    {
      MovFnOk(sha256, path, monedaDefault, root, idx, m, f(idx, m).value);
    }
    OutcomesAll(f, movs, P);
  }

  /** Record `j` is a valid xml transaction from position `j + 1`, with the root's bank
      and account and `_campo`'s confidence on its fields. */
  predicate XmlRecordOf(t: TransaccionBancaria, j: int, root: Element, path: string) {
    ValidTransaccion(t) && t.origen == Xml && t.filaOrigen == Some(j + 1) && !t.bloquea
    && t.banco == Banco(root) && t.cuentaMask == CuentaMask(root) && t.archivoOrigen == PathName(path)
    && XmlConfidence(t.fechaOperacion) && XmlConfidence(t.monto) && XmlConfidence(t.descripcion)
    && (t.fechaContable.Some? ==> XmlConfidence(t.fechaContable.value))
    && (t.referencia.Some? ==> XmlConfidence(t.referencia.value))
  }

  // ---------------------------------------------------------------------------
  // The loader

  /** The event written once the movimientos are counted. */
  function LoadedEvent(path: string, count: int): AuditEvent {
    AuditEvent("ingestion", LoadedMessage, map["archivo" := JStr(PathName(path)), "movimientos" := JInt(count)])
  }

  /** Reads the `<movimiento>`s under a root: the loop body of `cargar_transacciones_xml`. */
  type Reader = Element -> (int, Element) -> Result<TransaccionBancaria, Exc>

  function XmlReader(sha256: string -> Digest, path: string, monedaDefault: string): Reader {
    root => MovFn(sha256, path, monedaDefault, root)
  }

  /** What `cargar_transacciones_xml` returns or raises once the document is parsed,
      given its record reader and whether the audit write raises. */
  function CargaDoc(read: Reader, path: string, root: Element, cfg: ConfiguracionCliente, auditFailure: Option<Exc>): Result<seq<TransaccionBancaria>, Exc> {
    var movs := FindAll(root, MovTag);
    if |movs| > cfg.limites.maxXmlMovimientos then
      Err(Ingestion(CounterMessage(XmlLabel, CountName, |movs|, cfg.limites.maxXmlMovimientos, CountHints)))
    else if auditFailure.Some? then Err(auditFailure.value)
    else LoadFrom(read(root), movs, 0)
  }

  /** `CargaXml` for any record reader. */
  function CargaXmlWith(read: Reader, path: string, size: int, doc: XmlDoc, cfg: ConfiguracionCliente, auditFailure: Option<Exc>): Result<seq<TransaccionBancaria>, Exc> {
    if size > cfg.limites.maxInputBytes then Err(Ingestion(FileSizeMessage(XmlLabel, size, cfg.limites.maxInputBytes, SizeHints)))
    else CargaParsed(read, path, doc, cfg, auditFailure)
  }

  /** The part after the size guard: a malformed document's error, a refusal passed on
      as it was raised (only `ET.ParseError` is caught), or the load. */
  function CargaParsed(read: Reader, path: string, doc: XmlDoc, cfg: ConfiguracionCliente, auditFailure: Option<Exc>): Result<seq<TransaccionBancaria>, Exc> {
    match doc
    case Malformed(reason) => Err(Ingestion("XML invalido: " + reason))
    case Refused(k, message) => Err(Other(RefusalName(k), message))
    case Document(root) => CargaDoc(read, path, root, cfg, auditFailure)
  }

  /** What `cargar_transacciones_xml` returns or raises, given whether the audit write
      raises. */
  function CargaXml(sha256: string -> Digest, path: string, size: int, doc: XmlDoc, cfg: ConfiguracionCliente, auditFailure: Option<Exc>): Result<seq<TransaccionBancaria>, Exc> {
    CargaXmlWith(XmlReader(sha256, path, cfg.monedaDefault), path, size, doc, cfg, auditFailure)
  }

  /** The audit events the loader attempts once the document is parsed. */
  function DocEvents(path: string, root: Element, cfg: ConfiguracionCliente): seq<AuditEvent> {
    var n := |FindAll(root, MovTag)|;
    if n > cfg.limites.maxXmlMovimientos then [LimitEvent(path, CounterDetails(CountName, n, cfg.limites.maxXmlMovimientos, CountHints))]
    else [LoadedEvent(path, n)]
  }

  /** The audit events the loader attempts, in order. */
  function XmlEvents(path: string, size: int, doc: XmlDoc, cfg: ConfiguracionCliente): seq<AuditEvent> {
    if size > cfg.limites.maxInputBytes then [LimitEvent(path, FileSizeDetails(size, cfg.limites.maxInputBytes, SizeHints))]
    else ParsedEvents(path, doc, cfg)
  }

  /** The audit events after the size guard: none for a document that did not parse. */
  function ParsedEvents(path: string, doc: XmlDoc, cfg: ConfiguracionCliente): seq<AuditEvent> {
    match doc
    case Malformed(_) => []
    case Refused(_, _) => []
    case Document(root) => DocEvents(path, root, cfg)
  }

  /** Whether one of the two limits is exceeded. */
  predicate LimitBreached(size: int, doc: XmlDoc, cfg: ConfiguracionCliente) {
    size > cfg.limites.maxInputBytes || (doc.Document? && |FindAll(doc.root, MovTag)| > cfg.limites.maxXmlMovimientos)
  }


  /** The part of `cargar_transacciones_xml` after parsing: the count guard, the audit
      event, the loop. */
  method LoadDocument(read: Reader, path: string, root: Element, cfg: ConfiguracionCliente, audit: AuditSink)
    returns (r: Result<seq<TransaccionBancaria>, Exc>, stderr: string)
    modifies Footprint(audit)
    ensures r == CargaDoc(read, path, root, cfg, AuditFailure(audit))
    ensures Logged(audit) == old(Logged(audit)) + (if Fails(audit) then [] else Added(audit, DocEvents(path, root, cfg)))
    ensures stderr == (if Fails(audit) && |FindAll(root, MovTag)| > cfg.limites.maxXmlMovimientos then AuditFailureNote(FailureOf(audit)) else "")
  {
    var movs := FindAll(root, MovTag);
    var g;
    g, stderr := EnforceCounter(path, audit, CountName, |movs|, cfg.limites.maxXmlMovimientos, CountHints, XmlLabel);
    if g.Fail? {
      return Err(g.error), stderr;
    }
    var w := Emit(audit, LoadedEvent(path, |movs|));
    if w.Fail? {
      return Err(w.error), "";
    }
    r := LoadAll(read(root), movs);
  }

  /** `cargar_transacciones_xml` for any record reader. */
  method LoadXml(read: Reader, path: string, size: int, doc: XmlDoc, cfg: ConfiguracionCliente, audit: AuditSink)
    returns (r: Result<seq<TransaccionBancaria>, Exc>, stderr: string)
    modifies Footprint(audit)
    ensures r == CargaXmlWith(read, path, size, doc, cfg, AuditFailure(audit))
    ensures Logged(audit) == old(Logged(audit)) + (if Fails(audit) then [] else Added(audit, XmlEvents(path, size, doc, cfg)))
    ensures stderr == (if Fails(audit) && LimitBreached(size, doc, cfg) then AuditFailureNote(FailureOf(audit)) else "")
  {
    var g;
    g, stderr := EnforceFileSize(path, size, cfg.limites.maxInputBytes, audit, SizeHints, XmlLabel);
    if g.Fail? {
      return Err(g.error), stderr;
    }
    r, stderr := LoadParsed(read, path, doc, cfg, audit);
  }

  /** The loader after the size guard. */
  method LoadParsed(read: Reader, path: string, doc: XmlDoc, cfg: ConfiguracionCliente, audit: AuditSink)
    returns (r: Result<seq<TransaccionBancaria>, Exc>, stderr: string)
    modifies Footprint(audit)
    ensures r == CargaParsed(read, path, doc, cfg, AuditFailure(audit))
    ensures Logged(audit) == old(Logged(audit)) + (if Fails(audit) then [] else Added(audit, ParsedEvents(path, doc, cfg)))
    ensures stderr == (if Fails(audit) && doc.Document? && |FindAll(doc.root, MovTag)| > cfg.limites.maxXmlMovimientos then AuditFailureNote(FailureOf(audit)) else "")
  {
    if doc.Malformed? {
      return Err(Ingestion("XML invalido: " + doc.reason)), "";
    }
    if doc.Refused? {
      return Err(Other(RefusalName(doc.refusal), doc.message)), "";
    }
    r, stderr := LoadDocument(read, path, doc.root, cfg, audit);
  }

  /** `cargar_transacciones_xml` given the file's size and the parsed document; the
      second result is what it writes on stderr. */
  method CargarTransaccionesXml(sha256: string -> Digest, path: string, size: int, doc: XmlDoc, cfg: ConfiguracionCliente, audit: AuditSink)
    returns (r: Result<seq<TransaccionBancaria>, Exc>, stderr: string)
    modifies Footprint(audit)
    ensures r == CargaXml(sha256, path, size, doc, cfg, AuditFailure(audit))
    ensures Logged(audit) == old(Logged(audit)) + (if Fails(audit) then [] else Added(audit, XmlEvents(path, size, doc, cfg)))
    ensures stderr == (if Fails(audit) && LimitBreached(size, doc, cfg) then AuditFailureNote(FailureOf(audit)) else "")
  {
    r, stderr := LoadXml(XmlReader(sha256, path, cfg.monedaDefault), path, size, doc, cfg, audit);
  }

  // ---------------------------------------------------------------------------
  // What a load gives

  /** A successful load holds one record per `<movimiento>`, in document order, numbered
      by position, all from xml, unblocked, with the root's bank and masked account and
      every field at score 0.95 alta. */
  lemma LoadedRecords(sha256: string -> Digest, path: string, size: int, doc: XmlDoc, cfg: ConfiguracionCliente, auditFailure: Option<Exc>)
    requires CargaXml(sha256, path, size, doc, cfg, auditFailure).Ok?
    ensures doc.Document? && size <= cfg.limites.maxInputBytes && auditFailure.None?
    ensures |CargaXml(sha256, path, size, doc, cfg, auditFailure).value| == |FindAll(doc.root, MovTag)| <= cfg.limites.maxXmlMovimientos
    ensures forall j | 0 <= j < |CargaXml(sha256, path, size, doc, cfg, auditFailure).value| ::
      XmlRecordOf(CargaXml(sha256, path, size, doc, cfg, auditFailure).value[j], j, doc.root, path)
  {
    MovRecords(sha256, path, cfg.monedaDefault, doc.root, FindAll(doc.root, MovTag));
  }

  /** The size guard runs before the document is looked at, and the count guard before
      any movimiento is read or the load is audited. */
  lemma GuardsComeFirst(sha256: string -> Digest, path: string, size: int, doc: XmlDoc, doc2: XmlDoc, cfg: ConfiguracionCliente, auditFailure: Option<Exc>)
    ensures size > cfg.limites.maxInputBytes ==>
      CargaXml(sha256, path, size, doc, cfg, auditFailure) == CargaXml(sha256, path, size, doc2, cfg, None)
      && XmlEvents(path, size, doc, cfg) == XmlEvents(path, size, doc2, cfg)
    ensures size <= cfg.limites.maxInputBytes && doc.Document? && |FindAll(doc.root, MovTag)| > cfg.limites.maxXmlMovimientos ==>
      CargaXml(sha256, path, size, doc, cfg, auditFailure).Err?
      && CargaXml(sha256, path, size, doc, cfg, auditFailure).error.Ingestion?
      && forall k | 0 <= k < |XmlEvents(path, size, doc, cfg)| :: XmlEvents(path, size, doc, cfg)[k].tipo == "ingestion_limit"
  {
  }

  /** A failing load of a well-formed document within its limits raises the error of its
      first failing movimiento, and every earlier one reads. */
  lemma FirstFailingMovimiento(sha256: string -> Digest, path: string, size: int, doc: XmlDoc, cfg: ConfiguracionCliente)
    requires size <= cfg.limites.maxInputBytes && doc.Document? && |FindAll(doc.root, MovTag)| <= cfg.limites.maxXmlMovimientos
    requires CargaXml(sha256, path, size, doc, cfg, None).Err?
    ensures exists j | 0 <= j < |FindAll(doc.root, MovTag)| ::
      FirstFailure(MovFn(sha256, path, cfg.monedaDefault, doc.root), FindAll(doc.root, MovTag), j, CargaXml(sha256, path, size, doc, cfg, None).error)
  {
    var f := MovFn(sha256, path, cfg.monedaDefault, doc.root);
    var movs := FindAll(doc.root, MovTag);
    assert XmlReader(sha256, path, cfg.monedaDefault)(doc.root) == f;
    assert CargaXml(sha256, path, size, doc, cfg, None) == LoadFrom(f, movs, 0);
    OutcomesErr(f, movs);
  }

  /** A document defusedxml refuses is not reported as "XML invalido": the refusal leaves
      the loader as it was raised, after the size guard and before any event, and the CLI
      and `validate` classify it as an internal error. A ParseError, by contrast, is an
      ingestion error. */
  lemma ParseOutcomeClassified(sha256: string -> Digest, path: string, size: int, doc: XmlDoc, cfg: ConfiguracionCliente, auditFailure: Option<Exc>)
    requires size <= cfg.limites.maxInputBytes && !doc.Document?
    ensures XmlEvents(path, size, doc, cfg) == []
    ensures doc.Malformed? ==> CargaXml(sha256, path, size, doc, cfg, auditFailure) == Err(Ingestion("XML invalido: " + doc.reason))
    ensures doc.Refused? ==> CargaXml(sha256, path, size, doc, cfg, auditFailure) == Err(Other(RefusalName(doc.refusal), doc.message))
    ensures var e := CargaXml(sha256, path, size, doc, cfg, auditFailure).error;
      (CliErrors.ClassifyCliError(e).exitCode == CliErrors.ExitInternal <==> doc.Refused?)
      && (Pipeline.ValidateErrorType(e) == "internal" <==> doc.Refused?)
      && (CliErrors.ClassifyCliError(e).exitCode == CliErrors.ExitIngestion <==> doc.Malformed?)
  {
    var read := XmlReader(sha256, path, cfg.monedaDefault);
    assert CargaXml(sha256, path, size, doc, cfg, auditFailure) == CargaParsed(read, path, doc, cfg, auditFailure);
    var e := CargaParsed(read, path, doc, cfg, auditFailure).error;
    assert e.Ingestion? <==> doc.Malformed?;
    assert !e.Conciliador? && !e.OsError?;
    ErrorExitCodes(e);
  }

  lemma ErrorExitCodes(e: Exc)
    requires !e.Conciliador? && !e.OsError?
    ensures CliErrors.ClassifyCliError(e).exitCode == CliErrors.ExitInternal <==> !e.Ingestion?
    ensures Pipeline.ValidateErrorType(e) == "internal" <==> !e.Ingestion?
    ensures CliErrors.ClassifyCliError(e).exitCode == CliErrors.ExitIngestion <==> e.Ingestion?
  {
  }
}
