/** The CLI's error boundary: the exit code, category, message, details and hint each
    exception is rendered with, the console lines of that rendering, and the best-effort
    audit record of a failed command. */
module CliErrors {
  import opened Common
  import opened PyStr
  import opened Json
  import opened Errors
  import opened AuditLog
  import Pipeline

  const ExitSuccess: int := 0
  const ExitUserInput: int := 2
  const ExitConfig: int := 3
  const ExitIngestion: int := 4
  const ExitContract: int := 5
  const ExitIo: int := 6
  const ExitInternal: int := 10

  const OsErrorHint: string := "Revise permisos, rutas y espacio en disco."
  const InternalHint: string := "Reintente con --debug y reporte el problema con contexto y artefactos."

  datatype ErrorRender = ErrorRender(
    exitCode: int, category: string, message: string,
    details: map<string, JsonValue>, hint: Option<string>)

  /** `_error_details`: the details of an `ErrorConciliador`, nothing for any other
      exception. */
  function ErrorDetails(e: Exc): (r: map<string, JsonValue>)
    ensures e.Conciliador? ==> r == e.details
    ensures !e.Conciliador? ==> r == map[]
  {
    if e.Conciliador? then e.details else map[]
  }

  /** `_error_hint`: the hint of an `ErrorConciliador`, none for any other exception. */
  function ErrorHint(e: Exc): (r: Option<string>)
    ensures e.Conciliador? ==> r == e.hint
    ensures !e.Conciliador? ==> r == None
  {
    if e.Conciliador? then e.hint else None
  }

  predicate IsKind(e: Exc, k: ConcKind) {
    e.Conciliador? && e.kind == k
  }

  /** `classify_cli_error` */
  function ClassifyCliError(e: Exc): (r: ErrorRender)
    ensures r.exitCode == ExitUserInput <==> IsKind(e, EntradaUsuario)
    ensures r.exitCode == ExitConfig <==> IsKind(e, Configuracion)
    ensures r.exitCode == ExitIngestion <==> e.Ingestion?
    ensures r.exitCode == ExitContract <==> IsKind(e, Contrato)
    ensures r.exitCode == ExitIo <==> IsKind(e, OperacionIO) || e.OsError?
    ensures r.exitCode in {ExitUserInput, ExitConfig, ExitIngestion, ExitContract, ExitIo, ExitInternal}
    ensures r.details == ErrorDetails(e)
    ensures e.OsError? ==> r.message == "Error de lectura/escritura: " + Str(e) && r.hint == Some(OsErrorHint)
    ensures r.exitCode == ExitInternal ==> r.message == "Error interno no esperado: " + Str(e) && r.hint == Some(InternalHint)
    ensures r.exitCode != ExitInternal && !e.OsError? ==> r.message == Str(e) && r.hint == ErrorHint(e)
  {
    if IsKind(e, EntradaUsuario) then ErrorRender(ExitUserInput, "entrada", Str(e), ErrorDetails(e), ErrorHint(e))
    else if IsKind(e, Configuracion) then ErrorRender(ExitConfig, "configuracion", Str(e), ErrorDetails(e), ErrorHint(e))
    else if e.Ingestion? then ErrorRender(ExitIngestion, "ingestion", Str(e), ErrorDetails(e), ErrorHint(e))
    else if IsKind(e, Contrato) then ErrorRender(ExitContract, "contrato", Str(e), ErrorDetails(e), ErrorHint(e))
    else if IsKind(e, OperacionIO) then ErrorRender(ExitIo, "io", Str(e), ErrorDetails(e), ErrorHint(e))
    else if e.OsError? then ErrorRender(ExitIo, "io", "Error de lectura/escritura: " + Str(e), ErrorDetails(e), Some(OsErrorHint))
    else ErrorRender(ExitInternal, "interno", "Error interno no esperado: " + Str(e), ErrorDetails(e), Some(InternalHint))
  }

  /** Exit codes and categories go together: two exceptions share a category exactly
      when they share an exit code, and no failure exits with success. */
  lemma CategoriesMatchExitCodes(e1: Exc, e2: Exc)
    ensures ClassifyCliError(e1).category == ClassifyCliError(e2).category
        <==> ClassifyCliError(e1).exitCode == ClassifyCliError(e2).exitCode
    ensures ClassifyCliError(e1).exitCode != ExitSuccess
  {
  }

  /** ErrorIngestion is a ValueError, not an `ErrorConciliador`: it is rendered with no
      details and no hint. */
  lemma IngestionHasNoDetails(m: string)
    ensures ClassifyCliError(Ingestion(m)) == ErrorRender(ExitIngestion, "ingestion", m, map[], None)
  {
  }

  /** The pipeline's `validate` error type and the CLI's exit code classify alike,
      except that a user-input error, which the CLI reports with its own code, counts as
      internal for `validate`. */
  lemma ValidateTypeAgreesWithExitCode(e: Exc)
    ensures Pipeline.ValidateErrorType(e) == "config" <==> ClassifyCliError(e).exitCode == ExitConfig
    ensures Pipeline.ValidateErrorType(e) == "ingestion" <==> ClassifyCliError(e).exitCode == ExitIngestion
    ensures Pipeline.ValidateErrorType(e) == "contract" <==> ClassifyCliError(e).exitCode == ExitContract
    ensures Pipeline.ValidateErrorType(e) == "io" <==> ClassifyCliError(e).exitCode == ExitIo
    ensures Pipeline.ValidateErrorType(e) == "internal"
        <==> ClassifyCliError(e).exitCode in {ExitUserInput, ExitInternal}
  {
  }

  // ---------------------------------------------------------------------------
  // `render_and_exit`

  const DebugHeader: string := "Debug: traceback completo"

  function HeaderLine(r: ErrorRender): string {
    "[red]Error (" + r.category + ")[/red] " + r.message
  }

  function DetailLine(k: string, v: JsonValue, show: JsonValue -> string): string {
    "- " + k + ": " + show(v)
  }

  /** A hint is printed only when it is present and not empty. */
  function HintLines(h: Option<string>): seq<string> {
    if h.Some? && h.value != [] then ["Como resolver: " + h.value] else []
  }

  function DebugLines(debug: bool, traceback: string): seq<string> {
    if debug then [DebugHeader, RStrip(traceback)] else []
  }

  /** The detail lines for `keys`, in the order given. */
  function DetailLines(keys: seq<string>, details: map<string, JsonValue>, show: JsonValue -> string): (r: seq<string>)
    requires forall i | 0 <= i < |keys| :: keys[i] in details
    ensures |r| == |keys| && forall i | 0 <= i < |keys| :: r[i] == DetailLine(keys[i], details[keys[i]], show)
  {
    seq(|keys|, i requires 0 <= i < |keys| => DetailLine(keys[i], details[keys[i]], show))
  }

  function DetailSection(details: map<string, JsonValue>, show: JsonValue -> string): seq<string> {
    if details == map[] then [] else ["Detalles:"] + DetailLines(SortedKeys(details.Keys), details, show)
  }

  /** Everything `render_and_exit` prints, one entry per `console.print`. Values are shown
      through `show`, the traceback is given as text. */
  function RenderLines(r: ErrorRender, debug: bool, show: JsonValue -> string, traceback: string): seq<string> {
    [HeaderLine(r)] + DetailSection(r.details, show) + (HintLines(r.hint) + DebugLines(debug, traceback))
  }

  /** The `for k in sorted(...)` loop: one line per key, in the order given. */
  method PrintDetails(keys: seq<string>, details: map<string, JsonValue>, show: JsonValue -> string) returns (lines: seq<string>)
    requires forall i | 0 <= i < |keys| :: keys[i] in details
    ensures lines == DetailLines(keys, details, show)
  {
    lines := [];
    for i := 0 to |keys|
      invariant lines == DetailLines(keys[..i], details, show)
    {
      assert keys[..i + 1][..i] == keys[..i];
      lines := lines + [DetailLine(keys[i], details[keys[i]], show)];
    }
    assert keys[..|keys|] == keys;
  }

  /** The printing of a rendering, one `console.print` at a time. */
  method PrintRendered(rendered: ErrorRender, debug: bool, show: JsonValue -> string, traceback: string) returns (lines: seq<string>)
    ensures lines == RenderLines(rendered, debug, show, traceback)
  {
    var section: seq<string> := [];
    if rendered.details != map[] {
      var detailLines := PrintDetails(SortedKeys(rendered.details.Keys), rendered.details, show);
      section := ["Detalles:"] + detailLines;
    }
    lines := [HeaderLine(rendered)] + section + (HintLines(rendered.hint) + DebugLines(debug, traceback));
  }

  /** `render_and_exit`: prints the rendering and returns the exit code. */
  method RenderAndExit(e: Exc, debug: bool, show: JsonValue -> string, traceback: string) returns (lines: seq<string>, code: int)
    ensures lines == RenderLines(ClassifyCliError(e), debug, show, traceback)
    ensures code == ClassifyCliError(e).exitCode
  {
    var rendered := ClassifyCliError(e);
    lines := PrintRendered(rendered, debug, show, traceback);
    code := rendered.exitCode;
  }

  /** With no details, the header is followed directly by the hint and the traceback. */
  lemma RenderWithoutDetails(r: ErrorRender, debug: bool, show: JsonValue -> string, traceback: string)
    requires r.details == map[]
    ensures RenderLines(r, debug, show, traceback) == [HeaderLine(r)] + HintLines(r.hint) + DebugLines(debug, traceback)
  {
  }

  /** The details are printed after the header and `Detalles:`, one line per key, in
      strictly increasing key order, every key once. */
  lemma RenderDetailsSorted(r: ErrorRender, debug: bool, show: JsonValue -> string, traceback: string)
    requires r.details != map[]
    ensures var lines := RenderLines(r, debug, show, traceback);
      var keys := SortedKeys(r.details.Keys);
      |lines| >= 2 + |keys| && lines[0] == HeaderLine(r) && lines[1] == "Detalles:"
      && (forall i | 0 <= i < |keys| :: lines[2 + i] == DetailLine(keys[i], r.details[keys[i]], show))
      && (forall i, j | 0 <= i < j < |keys| :: StrLt(keys[i], keys[j]))
      && (forall k | k in r.details :: k in keys)
  {
    DetailsAt(HeaderLine(r), SortedKeys(r.details.Keys), r.details, show, HintLines(r.hint) + DebugLines(debug, traceback));
  }

  /** Where the detail lines sit among the printed lines, for any order of the keys. */
  lemma DetailsAt(header: string, keys: seq<string>, details: map<string, JsonValue>, show: JsonValue -> string, tail: seq<string>)
    requires forall i | 0 <= i < |keys| :: keys[i] in details
    ensures var lines := [header] + (["Detalles:"] + DetailLines(keys, details, show)) + tail;
      |lines| >= 2 + |keys| && lines[0] == header && lines[1] == "Detalles:"
      && (forall i | 0 <= i < |keys| :: lines[2 + i] == DetailLine(keys[i], details[keys[i]], show))
  {
    var dl := DetailLines(keys, details, show);
    var lines := [header] + (["Detalles:"] + dl) + tail;
    forall i | 0 <= i < |keys|
      ensures lines[2 + i] == DetailLine(keys[i], details[keys[i]], show)
    {
      assert lines[2 + i] == dl[i];
    }
  }

  /** The traceback is printed, last, only when `debug` is set: with `debug` the lines are
      those printed without it followed by the debug header and the stripped traceback,
      and without it the traceback does not matter. */
  lemma TracebackOnlyWithDebug(r: ErrorRender, show: JsonValue -> string, traceback: string, other: string)
    ensures RenderLines(r, true, show, traceback) == RenderLines(r, false, show, traceback) + [DebugHeader, RStrip(traceback)]
    ensures RenderLines(r, false, show, traceback) == RenderLines(r, false, show, other)
  {
    var head := [HeaderLine(r)] + DetailSection(r.details, show);
    assert RenderLines(r, false, show, traceback) == head + HintLines(r.hint);
  }

  // ---------------------------------------------------------------------------
  // `emit_failure_audit_best_effort`

  function FailureEvent(command: string, e: Exc): (ev: AuditEvent)
    ensures ev.detalles.Keys == {"command", "category", "exit_code", "error"}
    ensures ev.detalles["exit_code"] == JInt(ClassifyCliError(e).exitCode)
    ensures ev.detalles["category"] == JStr(ClassifyCliError(e).category)
  {
    var r := ClassifyCliError(e);
    AuditEvent("cli_error", "Ejecucion CLI fallida",
      map["command" := JStr(command), "category" := JStr(r.category),
          "exit_code" := JInt(r.exitCode), "error" := JStr(r.message)])
  }

  function AuditErrorNote(e: Exc): string {
    "[audit] no se pudo registrar cli_error: " + Str(e) + "\n"
  }

  /** `emit_failure_audit_best_effort`: records the failure in `audit.jsonl` and never
      raises. `mkdirFailure` is the OSError creating the output directory raises, if it
      does; `w` is the writer on the log file. A failure of either step is only written
      to stderr, which the method returns. */
  method EmitFailureAuditBestEffort(command: string, e: Exc, mkdirFailure: Option<string>, w: JsonlAuditWriter)
    returns (stderr: string)
    modifies w
    ensures mkdirFailure.Some? ==> w.lines == old(w.lines) && stderr == AuditErrorNote(OsError(mkdirFailure.value))
    ensures mkdirFailure.None? && w.failure.Some? ==>
      w.lines == old(w.lines) && stderr == AuditErrorNote(OsError(w.failure.value))
    ensures mkdirFailure.None? && w.failure.None? ==>
      w.lines == old(w.lines) + [EventJson(FailureEvent(command, e))] && stderr == ""
  {
    if mkdirFailure.Some? {
      return AuditErrorNote(OsError(mkdirFailure.value));
    }
    var written := w.Write(FailureEvent(command, e));
    if written.Fail? {
      return AuditErrorNote(written.error);
    }
    return "";
  }
}
