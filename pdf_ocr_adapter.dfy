/** The OCR fallback for scanned PDF statements. Rasterising the pages and running
    tesseract are not modelled: the loader is given whether the OCR libraries import and
    the text tesseract returns for each page, and scans that text line by line. Every
    record it keeps is blocked for human review. */
module PdfOcrAdapter {
  import opened Common
  import opened PyStr
  import opened Calendar
  import opened Json
  import opened Parsing
  import opened Models
  import opened Errors
  import opened AuditLog
  import opened Hashing
  import XmlAdapter

  const UnavailableMessage: string := "OCR no disponible. Instale extras: pip install -e '.[pdf_ocr]' y dependencias del sistema (poppler)."
  const NothingFoundMessage: string := "OCR completado pero no se detectaron transacciones (heuristica)."
  const MotivoOcr: string := "Transaccion proviene de PDF escaneado " + "procesado por OCR: requiere revision humana."
  const OcrNote: string := "OCR"
  const StartedMessage: string := "OCR iniciado"
  const FinishedMessage: string := "OCR finalizado"

  // ---------------------------------------------------------------------------
  // Fields

  /** `_campo`'s score: 0.30 less the degradation, clamped to [0, 1]. */
  function OcrScore(degrade: real): (s: real)
    ensures InUnit(s)
    ensures 0.0 <= degrade <= 0.30 ==> s == 0.30 - degrade
  {
    var s0 := 0.30 - degrade;
    if s0 < 0.0 then 0.0 else if s0 > 1.0 then 1.0 else s0
  }

  /** `_campo`: level baja and origin pdf_ocr whatever the score. */
  function OcrCampo(v: Valor, notas: Option<string>, degrade: real): (c: CampoConConfianza)
    ensures c.valor == v && ValidMetadata(c.confianza)
    ensures c.confianza.nivel == Baja && c.confianza.origen == PdfOcr && c.confianza.notas == notas
  {
    Campo(v, MetadataConfianza(OcrScore(degrade), Baja, PdfOcr, notas))
  }

  /** A field as the loader builds it: level baja, origin pdf_ocr, noted "OCR". */
  predicate OcrConfidence(c: CampoConConfianza) {
    c.confianza.nivel == Baja && c.confianza.origen == PdfOcr && c.confianza.notas == Some(OcrNote)
    && InUnit(c.confianza.score)
  }

  // ---------------------------------------------------------------------------
  // The line heuristic

  /** What an accepted line gives: its first token, the date read from it, the amount and
      the description. */
  datatype OcrLine = OcrLine(fechaTxt: string, fecha: PyDate, monto: int, desc: string)

  /** A token's amount when `parse_monto_clp` accepts it. */
  type TokenReader = string -> Option<int>

  function MontoToken(): TokenReader {
    tok => if ParseMontoClp(tok).Ok? then Some(ParseMontoClp(tok).value) else None
  }

  /** The inner loop over `reversed(parts)`: the amount of the rightmost token that
      reads. */
  function Rightmost(read: TokenReader, parts: seq<string>): Option<int>
  {
    if parts == [] then None
    else match read(parts[|parts| - 1])
      case Some(m) => Some(m)
      case None => Rightmost(read, parts[..|parts| - 1])
  }

  /** The amount is found exactly when some token reads, and it is the rightmost one's. */
  lemma {:induction false} RightmostIsRightmost(read: TokenReader, parts: seq<string>)
    ensures Rightmost(read, parts).None? <==> forall k | 0 <= k < |parts| :: read(parts[k]).None?
    ensures Rightmost(read, parts).Some? ==>
      exists k | 0 <= k < |parts| :: read(parts[k]) == Rightmost(read, parts) && forall j | k < j < |parts| :: read(parts[j]).None?
  {
    if parts != [] {
      var n := |parts| - 1;
      var init := parts[..n];
      assert forall k | 0 <= k < n :: init[k] == parts[k];
      if read(parts[n]).None? {
        RightmostIsRightmost(read, init);
        if Rightmost(read, init).Some? {
          var k :| 0 <= k < |init| && read(init[k]) == Rightmost(read, init) && forall j | k < j < |init| :: read(init[j]).None?;
          assert read(parts[k]) == Rightmost(read, parts);
        }
      }
    }
  }

  /** One iteration of the line loop: normalise, split on spaces, read the date from the
      first token and the amount from the rightmost token that reads, and drop the date
      token's first occurrence from the description. None is a `continue`. */
  function ScanLine(raw: string): (r: Option<OcrLine>)
  {
    var line := NormalizarTexto(raw);
    var parts := SplitChar(line, ' ');
    if line == [] || |parts| < 2 then None
    else match ParseFecha(parts[0])
      case Err(_) => None
      case Ok(fecha) =>
        match Rightmost(MontoToken(), parts)
        case None => None
        case Some(m) => Some(OcrLine(parts[0], fecha, m, NormalizarTexto(ReplaceFirst(line, parts[0], ""))))
  }

  /** The skipping rules, both ways: a line is kept exactly when it is not blank once
      normalised, has at least two space-separated tokens, its first token is a date and
      some token is an amount; then the amount is the rightmost such token's. */
  lemma ScanLineKeeps(raw: string)
    ensures var line := NormalizarTexto(raw);
      var parts := SplitChar(line, ' ');
      ScanLine(raw).Some? <==>
        (line != [] && |parts| >= 2 && ParseFecha(parts[0]).Ok?
         && exists k | 0 <= k < |parts| :: MontoToken()(parts[k]).Some?)
    ensures var parts := SplitChar(NormalizarTexto(raw), ' ');
      ScanLine(raw).Some? ==>
        (ScanLine(raw).value.fechaTxt == parts[0] && ParseFecha(parts[0]) == Ok(ScanLine(raw).value.fecha)
         && exists k | 0 <= k < |parts| ::
              MontoToken()(parts[k]) == Some(ScanLine(raw).value.monto)
              && forall j | k < j < |parts| :: MontoToken()(parts[j]).None?)
  {
    RightmostIsRightmost(MontoToken(), SplitChar(NormalizarTexto(raw), ' '));
  }

  /** The description is what follows the date token in the normalised line, normalised
      again: the token is the line's prefix, so its first occurrence is that prefix. */
  lemma OcrDescription(raw: string)
    requires ScanLine(raw).Some?
    ensures var line := NormalizarTexto(raw);
      var first := SplitChar(line, ' ')[0];
      |first| < |line| && line[|first|] == ' '
      && ScanLine(raw).value.desc == NormalizarTexto(line[|first|..])
  {
    var line := NormalizarTexto(raw);
    var parts := SplitChar(line, ' ');
    assert Join(parts, " ") == parts[0] + " " + Join(parts[1..], " ");
    assert line[..|parts[0]|] == parts[0];
    ReplaceFirstPrefix(line, parts[0]);
  }

  /** A line that is blank, or one token once normalised, is skipped. */
  lemma ShortLineSkipped(raw: string)
    requires ' ' !in NormalizarTexto(raw)
    ensures ScanLine(raw).None?
  {
    var line := NormalizarTexto(raw);
    assert SplitChar(line, ' ') == [line];
  }

  /** The heuristic as a value, for the loop's specification. */
  type Scanner = string -> Option<OcrLine>

  function LineScanner(): Scanner {
    raw => ScanLine(raw)
  }

  /** The accepted lines in order from line `k` on. */
  function AcceptedFrom(scan: Scanner, lines: seq<string>, k: nat): seq<OcrLine>
    requires k <= |lines|
    decreases |lines| - k
  {
    if k == |lines| then []
    else match scan(lines[k])
      case None => AcceptedFrom(scan, lines, k + 1)
      case Some(l) => [l] + AcceptedFrom(scan, lines, k + 1)
  }

  // ---------------------------------------------------------------------------
  // Records

  /** `str(path)`: the path's text; pathlib renders the empty path as ".". */
  function PathText(path: string): (r: string)
    ensures r != []
  {
    if path == [] then "." else path
  }

  function OcrDataNorm(l: OcrLine): map<string, JsonValue> {
    map[
      "fecha_operacion" := JStr(IsoFormat(l.fecha)),
      "monto" := JStr(IntToString(l.monto)),
      "descripcion" := JStr(l.desc)]
  }

  /** `_id_tx`: the same derivation as the xml loader's, over the line's normalised data. */
  function OcrId(sha256: string -> Digest, path: string, idx: int, l: OcrLine): (r: string)
    ensures |r| == 15 && StartsWith(r, "TX-")
  {
    XmlAdapter.IdTx(sha256, path, idx, OcrDataNorm(l))
  }

  /** The transaction accepted line number `idx` describes, before pydantic validates
      it. */
  function OcrTx(id: string, path: string, monedaDefault: string, idx: int, l: OcrLine): TransaccionBancaria {
    TransaccionBancaria(
      id, None, None, true, Some(MotivoOcr),
      OcrCampo(VDate(l.fecha), Some(OcrNote), 0.0),
      None,
      OcrCampo(VDecimal(l.monto), Some(OcrNote), 0.0),
      monedaDefault,
      OcrCampo(VStr(l.desc), Some(OcrNote), 0.05),
      None,
      PathText(path), PdfOcr, Some(idx))
  }

  lemma MotivoNotBlank()
    ensures Strip(MotivoOcr) != []
  {
    assert !IsSpace(MotivoOcr[0]);
    assert LStrip(MotivoOcr) == MotivoOcr;
  }

  /** The record an accepted line gives: the transaction or pydantic's ValidationError,
      which the loop does not catch. */
  function OcrRecord(id: string, path: string, monedaDefault: string, idx: int, l: OcrLine): (r: Result<TransaccionBancaria, Exc>)
    requires id != []
    ensures r.Ok? <==> IsMoneda(monedaDefault)
    ensures r.Ok? ==> r.value == OcrTx(id, path, monedaDefault, idx, l)
    ensures r.Err? ==> r.error.Validation?
  {
    MotivoNotBlank();
    match MakeTransaccion(OcrTx(id, path, monedaDefault, idx, l))
    case Err(ve) => Err(Validation(ve))
    case Ok(t) => Ok(t)
  }

  /** The records the loop builds, applying `rec` to each accepted line and its number;
      the first failure ends the loop. */
  function ScanFrom(scan: Scanner, rec: (int, OcrLine) -> Result<TransaccionBancaria, Exc>, lines: seq<string>, k: nat, n: int): Result<seq<TransaccionBancaria>, Exc>
    requires k <= |lines|
    decreases |lines| - k
  {
    if k == |lines| then Ok([])
    else match scan(lines[k])
      case None => ScanFrom(scan, rec, lines, k + 1, n)
      case Some(l) =>
        var t :- rec(n + 1, l);
        var rest :- ScanFrom(scan, rec, lines, k + 1, n + 1);
        Ok([t] + rest)
  }

  /** A successful scan gives one record per accepted line, numbered consecutively from
      `n + 1`: skipped lines consume no number. */
  lemma {:induction false} ScanRecords(scan: Scanner, rec: (int, OcrLine) -> Result<TransaccionBancaria, Exc>, lines: seq<string>, k: nat, n: int)
    requires k <= |lines|
    requires ScanFrom(scan, rec, lines, k, n).Ok?
    ensures |ScanFrom(scan, rec, lines, k, n).value| == |AcceptedFrom(scan, lines, k)|
    ensures forall j | 0 <= j < |AcceptedFrom(scan, lines, k)| ::
      rec(n + j + 1, AcceptedFrom(scan, lines, k)[j]) == Ok(ScanFrom(scan, rec, lines, k, n).value[j])
    decreases |lines| - k
  {
    if k < |lines| {
      match scan(lines[k])
      case None =>
        ScanRecords(scan, rec, lines, k + 1, n);
      case Some(l) =>
        ScanRecords(scan, rec, lines, k + 1, n + 1);
        var acc := AcceptedFrom(scan, lines, k);
        var ts := ScanFrom(scan, rec, lines, k, n).value;
        assert acc == [l] + AcceptedFrom(scan, lines, k + 1);
        assert ts == [rec(n + 1, l).value] + ScanFrom(scan, rec, lines, k + 1, n + 1).value;
        forall j | 0 <= j < |acc|
          ensures rec(n + j + 1, acc[j]) == Ok(ts[j])
        {
          if j > 0 {
            assert acc[j] == AcceptedFrom(scan, lines, k + 1)[j - 1];
            assert ts[j] == ScanFrom(scan, rec, lines, k + 1, n + 1).value[j - 1];
          }
        }
    }
  }

  /** What record `j` of a successful scan is: the accepted line's date, amount and
      description, blocked with the OCR reason, from pdf_ocr with no reference, account or
      bank, in the default currency, every field at level baja. */
  predicate OcrRecordOf(t: TransaccionBancaria, j: int, l: OcrLine, path: string, monedaDefault: string) {
    ValidTransaccion(t) && |t.id| == 15 && StartsWith(t.id, "TX-") && t.bloquea && t.motivo == Some(MotivoOcr) && t.origen == PdfOcr
    && t.referencia.None? && t.fechaContable.None? && t.cuentaMask.None? && t.banco.None?
    && t.moneda == monedaDefault && t.filaOrigen == Some(j + 1) && t.archivoOrigen == PathText(path)
    && t.fechaOperacion.valor == VDate(l.fecha) && t.monto.valor == VDecimal(l.monto) && t.descripcion.valor == VStr(l.desc)
    && OcrConfidence(t.fechaOperacion) && OcrConfidence(t.monto) && OcrConfidence(t.descripcion)
  }

  function OcrFn(sha256: string -> Digest, path: string, monedaDefault: string): (int, OcrLine) -> Result<TransaccionBancaria, Exc> {
    (idx: int, l: OcrLine) => OcrRecord(OcrId(sha256, path, idx, l), path, monedaDefault, idx, l)
  }

  lemma OcrFnOk(sha256: string -> Digest, path: string, monedaDefault: string, idx: int, l: OcrLine, t: TransaccionBancaria)
    requires OcrFn(sha256, path, monedaDefault)(idx, l) == Ok(t)
    ensures OcrRecordOf(t, idx - 1, l, path, monedaDefault)
  {
    assert OcrFn(sha256, path, monedaDefault)(idx, l) == OcrRecord(OcrId(sha256, path, idx, l), path, monedaDefault, idx, l);
  }

  /** What holds of every record `rec` gives holds of every record of a successful scan,
      with the record's position and accepted line. */
  lemma ScanAll(scan: Scanner, rec: (int, OcrLine) -> Result<TransaccionBancaria, Exc>, lines: seq<string>,
                P: (TransaccionBancaria, int, OcrLine) -> bool)
    requires forall idx, l | rec(idx, l).Ok? :: P(rec(idx, l).value, idx - 1, l)
    ensures ScanFrom(scan, rec, lines, 0, 0).Ok? ==>
      |ScanFrom(scan, rec, lines, 0, 0).value| == |AcceptedFrom(scan, lines, 0)|
      && forall j | 0 <= j < |AcceptedFrom(scan, lines, 0)| ::
        P(ScanFrom(scan, rec, lines, 0, 0).value[j], j, AcceptedFrom(scan, lines, 0)[j])
  {
    if ScanFrom(scan, rec, lines, 0, 0).Ok? {
      ScanRecords(scan, rec, lines, 0, 0);
      var ts := ScanFrom(scan, rec, lines, 0, 0).value;
      var acc := AcceptedFrom(scan, lines, 0);
      forall j | 0 <= j < |acc|
        ensures P(ts[j], j, acc[j])
      {
        assert rec(0 + j + 1, acc[j]) == Ok(ts[j]);
      }
    }
  }

  // ---------------------------------------------------------------------------
  // The loops

  /** `for tok in reversed(parts)`, stopping at the first token that reads. */
  method ReadMonto(read: TokenReader, parts: seq<string>) returns (monto: Option<int>)
    ensures monto == Rightmost(read, parts)
  {
    monto := None;
    var k := |parts|;
    assert parts[..k] == parts;
    while k > 0
      invariant 0 <= k <= |parts|
      invariant Rightmost(read, parts) == Rightmost(read, parts[..k])
      decreases k
    {
      assert parts[..k][..k - 1] == parts[..k - 1];
      var p := read(parts[k - 1]);
      if p.Some? {
        return p;
      }
      k := k - 1;
    }
  }

  /** The body of the line loop up to the record. */
  method ReadLine(raw: string) returns (r: Option<OcrLine>)
    ensures r == ScanLine(raw)
  {
    var line := NormalizarTexto(raw);
    if line == [] {
      return None;
    }
    var parts := SplitChar(line, ' ');
    if |parts| < 2 {
      return None;
    }
    var fechaTxt := parts[0];
    var fecha := ParseFechaChile(fechaTxt);
    if fecha.Err? {
      return None;
    }
    var monto := ReadMonto(MontoToken(), parts);
    if monto.None? {
      return None;
    }
    var desc := NormalizarTexto(ReplaceFirst(line, fechaTxt, ""));
    return Some(OcrLine(fechaTxt, fecha.value, monto.value, desc));
  }

  /** The line loop: `idx` counts the accepted lines and `out` collects their records;
      `scan` is the loop body up to the record, `ReadLine`. */
  method ScanLines(scan: Scanner, rec: (int, OcrLine) -> Result<TransaccionBancaria, Exc>, lines: seq<string>) returns (r: Result<seq<TransaccionBancaria>, Exc>)
    ensures r == ScanFrom(scan, rec, lines, 0, 0)
  {
    var out: seq<TransaccionBancaria> := [];
    var idx := 0;
    var k := 0;
    assert ScanFrom(scan, rec, lines, 0, 0).Ok? ==>
      out + ScanFrom(scan, rec, lines, 0, 0).value == ScanFrom(scan, rec, lines, 0, 0).value;
    while k < |lines|
      invariant 0 <= k <= |lines| && idx == |out|
      invariant ScanFrom(scan, rec, lines, 0, 0) == Prepend(out, ScanFrom(scan, rec, lines, k, idx))
      decreases |lines| - k
    {
      var l := scan(lines[k]);
      if l.Some? {
        idx := idx + 1;
        var t := rec(idx, l.value);
        if t.Err? {
          return Err(t.error);
        }
        var rest := ScanFrom(scan, rec, lines, k + 1, idx);
        assert rest.Ok? ==> out + ([t.value] + rest.value) == (out + [t.value]) + rest.value;
        out := out + [t.value];
      }
      k := k + 1;
    }
    assert out + [] == out;
    return Ok(out);
  }

  // ---------------------------------------------------------------------------
  // The loader

  /** The text tesseract returns for the pages, joined and split into lines. */
  function OcrLines(pages: seq<string>): seq<string> {
    SplitLines(Join(pages, "\n"))
  }

  function StartedEvent(path: string): AuditEvent {
    AuditEvent("ingestion", StartedMessage, map["archivo" := JStr(PathName(path))])
  }

  function FinishedEvent(path: string, count: int): AuditEvent {
    AuditEvent("ingestion", FinishedMessage, map["archivo" := JStr(PathName(path)), "txs" := JInt(count)])
  }

  /** What `cargar_transacciones_pdf_ocr` returns or raises, given whether the OCR
      libraries import, the page texts and whether the audit write raises. */
  function CargaOcr(scan: Scanner, rec: (int, OcrLine) -> Result<TransaccionBancaria, Exc>, available: bool, pages: seq<string>, auditFailure: Option<Exc>): Result<seq<TransaccionBancaria>, Exc> {
    if !available then Err(Ingestion(UnavailableMessage))
    else if auditFailure.Some? then Err(auditFailure.value)
    else ScanOutcome(ScanFrom(scan, rec, OcrLines(pages), 0, 0))
  }

  /** After the scan: its error, the "nothing found" error, or the records. */
  function ScanOutcome(out: Result<seq<TransaccionBancaria>, Exc>): Result<seq<TransaccionBancaria>, Exc> {
    if out.Err? then Err(out.error)
    else if out.value == [] then Err(Ingestion(NothingFoundMessage))
    else out
  }

  /** The audit events the loader attempts, in order: none without the libraries, the
      start, then the end with the count once every line is scanned. */
  function OcrEvents(scan: Scanner, rec: (int, OcrLine) -> Result<TransaccionBancaria, Exc>, path: string, available: bool, pages: seq<string>): seq<AuditEvent> {
    if !available then []
    else [StartedEvent(path)] + ScanEvents(path, ScanFrom(scan, rec, OcrLines(pages), 0, 0))
  }

  /** The closing event, written only when the scan went through. */
  function ScanEvents(path: string, out: Result<seq<TransaccionBancaria>, Exc>): seq<AuditEvent> {
    if out.Ok? then [FinishedEvent(path, |out.value|)] else []
  }

  /** The loader for any line scanner and record function. */
  method LoadOcr(scan: Scanner, rec: (int, OcrLine) -> Result<TransaccionBancaria, Exc>, path: string, available: bool, pages: seq<string>, audit: AuditSink)
    returns (r: Result<seq<TransaccionBancaria>, Exc>)
    modifies Footprint(audit)
    ensures r == CargaOcr(scan, rec, available, pages, AuditFailure(audit))
    ensures Logged(audit) == old(Logged(audit)) + (if Fails(audit) then [] else Added(audit, OcrEvents(scan, rec, path, available, pages)))
  {
    if !available {
      return Err(Ingestion(UnavailableMessage));
    }
    var w := Emit(audit, StartedEvent(path));
    if w.Fail? {
      return Err(w.error);
    }
    ghost var scanned := ScanFrom(scan, rec, OcrLines(pages), 0, 0);
    assert !Fails(audit) && AuditFailure(audit) == None;
    r := ScanPages(scan, rec, path, pages, audit);
    AddedAppend(audit, [StartedEvent(path)], ScanEvents(path, scanned));
    assert OcrEvents(scan, rec, path, available, pages) == [StartedEvent(path)] + ScanEvents(path, scanned);
  }

  /** The loader once the start is logged: scan the joined page texts, log the end,
      and refuse an empty result. */
  method ScanPages(scan: Scanner, rec: (int, OcrLine) -> Result<TransaccionBancaria, Exc>, path: string, pages: seq<string>, audit: AuditSink)
    returns (r: Result<seq<TransaccionBancaria>, Exc>)
    requires !Fails(audit)
    modifies Footprint(audit)
    ensures r == ScanOutcome(ScanFrom(scan, rec, OcrLines(pages), 0, 0))
    ensures Logged(audit) == old(Logged(audit)) + Added(audit, ScanEvents(path, ScanFrom(scan, rec, OcrLines(pages), 0, 0)))
  {
    var full := Join(pages, "\n");
    var out := ScanLines(scan, rec, SplitLines(full));
    assert out == ScanFrom(scan, rec, OcrLines(pages), 0, 0);
    if out.Err? {
      return Err(out.error);
    }
    var w := Emit(audit, FinishedEvent(path, |out.value|));
    if out.value == [] {
      return Err(Ingestion(NothingFoundMessage));
    }
    r := out;
  }

  /** `cargar_transacciones_pdf_ocr`: `available` is whether pdf2image and pytesseract
      import, `pages` the text tesseract returns for each page image. */
  method CargarTransaccionesPdfOcr(sha256: string -> Digest, path: string, available: bool, pages: seq<string>, cfg: ConfiguracionCliente, audit: AuditSink)
    returns (r: Result<seq<TransaccionBancaria>, Exc>)
    modifies Footprint(audit)
    ensures r == CargaOcr(LineScanner(), OcrFn(sha256, path, cfg.monedaDefault), available, pages, AuditFailure(audit))
    ensures Logged(audit) == old(Logged(audit)) + (if Fails(audit) then [] else Added(audit, OcrEvents(LineScanner(), OcrFn(sha256, path, cfg.monedaDefault), path, available, pages)))
  {
    r := LoadOcr(LineScanner(), OcrFn(sha256, path, cfg.monedaDefault), path, available, pages, audit);
  }

  // ---------------------------------------------------------------------------
  // What a load gives

  /** Without the OCR libraries the loader raises before it writes anything. */
  lemma UnavailableFailsFirst(rec: (int, OcrLine) -> Result<TransaccionBancaria, Exc>, path: string, pages: seq<string>, auditFailure: Option<Exc>)
    ensures CargaOcr(LineScanner(), rec, false, pages, auditFailure) == Err(Ingestion(UnavailableMessage))
    ensures OcrEvents(LineScanner(), rec, path, false, pages) == []
  {
  }

  /** When no line is accepted the loader still writes the end event, with count 0, and
      then raises. */
  lemma NothingFoundAfterEvent(sha256: string -> Digest, path: string, monedaDefault: string, pages: seq<string>)
    requires AcceptedFrom(LineScanner(), OcrLines(pages), 0) == []
    ensures CargaOcr(LineScanner(), OcrFn(sha256, path, monedaDefault), true, pages, None) == Err(Ingestion(NothingFoundMessage))
    ensures OcrEvents(LineScanner(), OcrFn(sha256, path, monedaDefault), path, true, pages) == [StartedEvent(path), FinishedEvent(path, 0)]
  {
    NoneAccepted(LineScanner(), OcrFn(sha256, path, monedaDefault), OcrLines(pages), 0, 0);
  }

  lemma {:induction false} NoneAccepted(scan: Scanner, rec: (int, OcrLine) -> Result<TransaccionBancaria, Exc>, lines: seq<string>, k: nat, n: int)
    requires k <= |lines|
    requires AcceptedFrom(scan, lines, k) == []
    ensures ScanFrom(scan, rec, lines, k, n) == Ok([])
    decreases |lines| - k
  {
    if k < |lines| {
      NoneAccepted(scan, rec, lines, k + 1, n);
    }
  }

  /** A successful load holds one record per accepted line, in order, numbered 1, 2, …,
      each blocked, from pdf_ocr, at level baja, in the default currency. */
  lemma LoadedRecords(sha256: string -> Digest, path: string, available: bool, pages: seq<string>, cfg: ConfiguracionCliente, auditFailure: Option<Exc>)
    requires CargaOcr(LineScanner(), OcrFn(sha256, path, cfg.monedaDefault), available, pages, auditFailure).Ok?
    ensures available && auditFailure.None? && AcceptedFrom(LineScanner(), OcrLines(pages), 0) != []
    ensures var ts := CargaOcr(LineScanner(), OcrFn(sha256, path, cfg.monedaDefault), available, pages, auditFailure).value;
      |ts| == |AcceptedFrom(LineScanner(), OcrLines(pages), 0)|
      && forall j | 0 <= j < |ts| :: OcrRecordOf(ts[j], j, AcceptedFrom(LineScanner(), OcrLines(pages), 0)[j], path, cfg.monedaDefault)
  {
    var f := OcrFn(sha256, path, cfg.monedaDefault);
    var P := (t, j, l) => OcrRecordOf(t, j, l, path, cfg.monedaDefault);
    forall idx, l | f(idx, l).Ok?
      ensures P(f(idx, l).value, idx - 1, l)
    {
      OcrFnOk(sha256, path, cfg.monedaDefault, idx, l, f(idx, l).value);
    }
    ScanAll(LineScanner(), f, OcrLines(pages), P);
  }
}
