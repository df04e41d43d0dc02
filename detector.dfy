/** Picks the loader for a bank or expected-movement file from its suffix. The loaders
    themselves are given as the outcome each would have on the file: only the chosen one
    counts, which is how the model says the others are never called. */
module Detector {
  import opened Common
  import opened PyStr
  import opened Json
  import opened Models
  import opened Errors
  import opened AuditLog

  /** `path.suffix.lower()` */
  function SuffixOf(path: string): string {
    Lower(Suffix(PathName(path)))
  }

  const OcrDisabledMessage: string :=
    "PDF parece escaneado (sin texto extraible) y OCR esta deshabilitado. " + "Ejecute con --enable-ocr e instale extras."

  function BankUnsupported(path: string): Exc {
    Ingestion("Formato banco no soportado: " + PathName(path))
  }

  function ExpUnsupported(path: string): Exc {
    Ingestion("Formato esperados no soportado: " + PathName(path))
  }

  /** What each bank loader would return or raise on the file; `pdfText` also says
      whether the PDF looks scanned. */
  datatype BankLoaders = BankLoaders(
    csv: Result<seq<TransaccionBancaria>, Exc>,
    xlsx: Result<seq<TransaccionBancaria>, Exc>,
    xml: Result<seq<TransaccionBancaria>, Exc>,
    pdfText: Result<(seq<TransaccionBancaria>, bool), Exc>,
    ocr: Result<seq<TransaccionBancaria>, Exc>)

  /** `cargar_transacciones_bancarias` */
  function CargarTransaccionesBancarias(path: string, cfg: ConfiguracionCliente, ld: BankLoaders): Result<seq<TransaccionBancaria>, Exc> {
    var suf := SuffixOf(path);
    if suf == ".csv" then ld.csv
    else if suf == ".xlsx" then ld.xlsx
    else if suf == ".xml" then ld.xml
    else if suf == ".pdf" then
      match ld.pdfText
      case Err(e) => Err(e)
      case Ok((txs, pareceEscaneado)) =>
        if !pareceEscaneado then Ok(txs)
        else if !cfg.permitirOcr then Err(Ingestion(OcrDisabledMessage))
        else ld.ocr
    else Err(BankUnsupported(path))
  }

  /** The four suffixes each go to their own loader, and any other raises ErrorIngestion
      naming the file. */
  lemma BankDispatch(path: string, cfg: ConfiguracionCliente, ld: BankLoaders)
    ensures SuffixOf(path) == ".csv" ==> CargarTransaccionesBancarias(path, cfg, ld) == ld.csv
    ensures SuffixOf(path) == ".xlsx" ==> CargarTransaccionesBancarias(path, cfg, ld) == ld.xlsx
    ensures SuffixOf(path) == ".xml" ==> CargarTransaccionesBancarias(path, cfg, ld) == ld.xml
    ensures SuffixOf(path) !in {".csv", ".xlsx", ".xml", ".pdf"} ==>
      (CargarTransaccionesBancarias(path, cfg, ld) == Err(BankUnsupported(path))
       && EndsWith(BankUnsupported(path).message, PathName(path)))
  {
  }

  /** A file whose suffix is written in upper case is dispatched as the same file with the
      suffix in any case, e.g. `banco.XML` as `banco.xml`. */
  lemma SuffixCaseInsensitive(p1: string, p2: string, cfg: ConfiguracionCliente, ld: BankLoaders)
    requires Suffix(PathName(p2)) == Upper(Suffix(PathName(p1)))
    ensures SuffixOf(p2) == SuffixOf(p1)
    ensures SuffixOf(p1) in {".csv", ".xlsx", ".xml", ".pdf"} ==>
      CargarTransaccionesBancarias(p1, cfg, ld) == CargarTransaccionesBancarias(p2, cfg, ld)
  {
    LowerOfUpper(Suffix(PathName(p1)));
  }

  /** A PDF with extractable text gives the text loader's transactions, whatever OCR would
      have done, and whether or not OCR is allowed. */
  lemma TextPdfSkipsOcr(path: string, cfg: ConfiguracionCliente, ld: BankLoaders, ocr: Result<seq<TransaccionBancaria>, Exc>, permitir: bool)
    requires SuffixOf(path) == ".pdf" && ld.pdfText.Ok? && !ld.pdfText.value.1
    ensures CargarTransaccionesBancarias(path, cfg, ld) == Ok(ld.pdfText.value.0)
    ensures CargarTransaccionesBancarias(path, cfg, ld) == CargarTransaccionesBancarias(path, cfg.(permitirOcr := permitir), ld.(ocr := ocr))
  {
  }

  /** A scanned PDF raises the OCR-disabled error unless OCR is allowed, and is otherwise
      the OCR loader's result. */
  lemma ScannedPdf(path: string, cfg: ConfiguracionCliente, ld: BankLoaders)
    requires SuffixOf(path) == ".pdf" && ld.pdfText.Ok? && ld.pdfText.value.1
    ensures !cfg.permitirOcr ==> CargarTransaccionesBancarias(path, cfg, ld) == Err(Ingestion(OcrDisabledMessage))
    ensures cfg.permitirOcr ==> CargarTransaccionesBancarias(path, cfg, ld) == ld.ocr
  {
  }

  /** What `cargar_movimientos_esperados` returns or raises, given the two loaders'
      outcomes and whether the audit write raises. */
  function CargaEsperados(path: string, csv: Result<seq<MovimientoEsperado>, Exc>, xlsx: Result<seq<MovimientoEsperado>, Exc>, auditFailure: Option<Exc>): Result<seq<MovimientoEsperado>, Exc> {
    var suf := SuffixOf(path);
    if suf == ".csv" then csv
    else if suf == ".xlsx" then xlsx
    else if auditFailure.Some? then Err(auditFailure.value)
    else Err(ExpUnsupported(path))
  }

  function ExpUnsupportedEvent(path: string): AuditEvent {
    AuditEvent("ingestion", "Formato esperados no soportado", map["archivo" := JStr(PathName(path))])
  }

  /** `cargar_movimientos_esperados`: an unsupported suffix writes one audit event, then
      raises. */
  method CargarMovimientosEsperados(path: string, csv: Result<seq<MovimientoEsperado>, Exc>, xlsx: Result<seq<MovimientoEsperado>, Exc>, audit: AuditSink)
    returns (r: Result<seq<MovimientoEsperado>, Exc>)
    modifies Footprint(audit)
    ensures r == CargaEsperados(path, csv, xlsx, AuditFailure(audit))
    ensures SuffixOf(path) in {".csv", ".xlsx"} ==> Logged(audit) == old(Logged(audit))
    ensures SuffixOf(path) !in {".csv", ".xlsx"} ==>
      Logged(audit) == old(Logged(audit)) + (if Fails(audit) then [] else Added(audit, [ExpUnsupportedEvent(path)]))
  {
    var suf := SuffixOf(path);
    if suf == ".csv" {
      return csv;
    }
    if suf == ".xlsx" {
      return xlsx;
    }
    var w := Emit(audit, ExpUnsupportedEvent(path));
    if w.Fail? {
      return Err(w.error);
    }
    return Err(ExpUnsupported(path));
  }

  /** An unsupported expected file raises ErrorIngestion naming it when the audit write
      succeeds, and the write's own error when it does not. */
  lemma ExpUnsupportedRaises(path: string, csv: Result<seq<MovimientoEsperado>, Exc>, xlsx: Result<seq<MovimientoEsperado>, Exc>, auditFailure: Option<Exc>)
    requires SuffixOf(path) !in {".csv", ".xlsx"}
    ensures auditFailure.None? ==>
      (CargaEsperados(path, csv, xlsx, auditFailure) == Err(ExpUnsupported(path))
       && EndsWith(ExpUnsupported(path).message, PathName(path)))
    ensures auditFailure.Some? ==> CargaEsperados(path, csv, xlsx, auditFailure) == Err(auditFailure.value)
  {
  }
}
