/** The pipeline's pure helpers: the command-line limit overrides, the OCR switch, the
    error type `validate` reports, the checks `validate` makes before and after loading,
    and the run id derived from the run fingerprint. */
module Pipeline {
  import opened Common
  import opened PyStr
  import opened Json
  import opened Models
  import opened Errors
  import opened Hashing
  import Detector
  import RunSchema
  import RunSchemaLemmas
  import Version

  // ---------------------------------------------------------------------------
  // Effective configuration

  /** The six `--max-*` options, each absent unless given. */
  datatype LimitOverrides = LimitOverrides(
    maxInputBytes: Option<int>, maxTabularRows: Option<int>, maxTabularCells: Option<int>,
    maxPdfPages: Option<int>, maxPdfTextChars: Option<int>, maxXmlMovimientos: Option<int>)

  predicate NoOverrides(o: LimitOverrides) {
    o.maxInputBytes.None? && o.maxTabularRows.None? && o.maxTabularCells.None?
    && o.maxPdfPages.None? && o.maxPdfTextChars.None? && o.maxXmlMovimientos.None?
  }

  function Pick(o: Option<int>, current: int): int {
    if o.Some? then o.value else current
  }

  /** A limit after an override: the given value, or the old one when the option is absent. */
  predicate Overridden(o: Option<int>, before: int, after: int) {
    (o.Some? ==> after == o.value) && (o.None? ==> after == before)
  }

  /** `_apply_limit_overrides` */
  function ApplyLimitOverrides(cfg: ConfiguracionCliente, o: LimitOverrides): (r: ConfiguracionCliente)
    ensures NoOverrides(o) ==> r == cfg
    ensures r.(limites := cfg.limites) == cfg
    ensures Overridden(o.maxInputBytes, cfg.limites.maxInputBytes, r.limites.maxInputBytes)
    ensures Overridden(o.maxTabularRows, cfg.limites.maxTabularRows, r.limites.maxTabularRows)
    ensures Overridden(o.maxTabularCells, cfg.limites.maxTabularCells, r.limites.maxTabularCells)
    ensures Overridden(o.maxPdfPages, cfg.limites.maxPdfPages, r.limites.maxPdfPages)
    ensures Overridden(o.maxPdfTextChars, cfg.limites.maxPdfTextChars, r.limites.maxPdfTextChars)
    ensures Overridden(o.maxXmlMovimientos, cfg.limites.maxXmlMovimientos, r.limites.maxXmlMovimientos)
  {
    if NoOverrides(o) then cfg
    else
      var l := cfg.limites;
      cfg.(limites := LimitesIngesta(
        Pick(o.maxInputBytes, l.maxInputBytes), Pick(o.maxTabularRows, l.maxTabularRows),
        Pick(o.maxTabularCells, l.maxTabularCells), Pick(o.maxPdfPages, l.maxPdfPages),
        Pick(o.maxPdfTextChars, l.maxPdfTextChars), Pick(o.maxXmlMovimientos, l.maxXmlMovimientos)))
  }

  /** `model_copy` does not validate: an override below 1 is kept, and the resulting
      limits break the bound the configuration model itself enforces. */
  lemma OverridesNotRechecked(cfg: ConfiguracionCliente, o: LimitOverrides)
    requires o.maxPdfPages.Some? && o.maxPdfPages.value < 1
    ensures ApplyLimitOverrides(cfg, o).limites.maxPdfPages == o.maxPdfPages.value
    ensures !ValidLimites(ApplyLimitOverrides(cfg, o).limites)
  {
  }

  /** The configuration a run or a validation works with: `--enable-ocr` switches OCR on
      (and never off), then the limit overrides apply. */
  function EffectiveConfig(cfg: ConfiguracionCliente, enableOcr: bool, o: LimitOverrides): (r: ConfiguracionCliente)
    ensures r.permitirOcr == (enableOcr || cfg.permitirOcr)
    ensures r.(permitirOcr := cfg.permitirOcr, limites := cfg.limites) == cfg
    ensures !enableOcr && NoOverrides(o) ==> r == cfg
  {
    ApplyLimitOverrides(if enableOcr then cfg.(permitirOcr := true) else cfg, o)
  }

  // ---------------------------------------------------------------------------
  // Error type

  /** `_validate_error_type` */
  function ValidateErrorType(e: Exc): (r: string)
    ensures r == "config" <==> e.Conciliador? && e.kind == Configuracion
    ensures r == "ingestion" <==> e.Ingestion?
    ensures r == "contract" <==> e.Conciliador? && e.kind == Contrato
    ensures r == "io" <==> (e.Conciliador? && e.kind == OperacionIO) || e.OsError?
    ensures r in {"config", "ingestion", "contract", "io", "internal"}
  {
    if e.Conciliador? && e.kind == Configuracion then "config"
    else if e.Ingestion? then "ingestion"
    else if e.Conciliador? && e.kind == Contrato then "contract"
    else if (e.Conciliador? && e.kind == OperacionIO) || e.OsError? then "io"
    else "internal"
  }

  // ---------------------------------------------------------------------------
  // `ejecutar_validate`

  /** One flag to check: the path given, the flag's name, and the suffixes it accepts. */
  datatype FormatCheck = FormatCheck(path: string, flag: string, soportados: set<string>)

  function FormatChecks(bank: string, expected: string, bankSup: set<string>, expSup: set<string>): seq<FormatCheck> {
    [FormatCheck(bank, "--bank", bankSup), FormatCheck(expected, "--expected", expSup)]
  }

  predicate Unsupported(c: FormatCheck) {
    Detector.SuffixOf(c.path) !in c.soportados
  }

  /** The message for a flag whose suffix is not supported, listing the supported ones
      in sorted order. */
  function FormatMessage(c: FormatCheck): string {
    "Formato no soportado para " + c.flag + ": " + PathName(c.path) + ". Soportados: "
    + Join(SortedKeys(c.soportados), ", ")
  }

  /** The errors of the checks, one per unsupported flag, in order. */
  function FormatErrors(cs: seq<FormatCheck>): seq<string> {
    if cs == [] then []
    else
      var last := cs[|cs| - 1];
      FormatErrors(cs[..|cs| - 1]) + (if Unsupported(last) then [FormatMessage(last)] else [])
  }

  /** The suffix loop of `ejecutar_validate`. */
  method CheckFormats(cs: seq<FormatCheck>) returns (errores: seq<string>)
    ensures errores == FormatErrors(cs)
  {
    errores := [];
    for i := 0 to |cs|
      invariant errores == FormatErrors(cs[..i])
    {
      assert cs[..i + 1][..i] == cs[..i];
      if Unsupported(cs[i]) {
        errores := errores + [FormatMessage(cs[i])];
      }
    }
    assert cs[..|cs|] == cs;
  }

  /** Each check contributes exactly its own message when its suffix is unsupported, and
      nothing otherwise. */
  lemma {:induction false} FormatErrorsConcat(a: seq<FormatCheck>, b: seq<FormatCheck>)
    ensures FormatErrors(a + b) == FormatErrors(a) + FormatErrors(b)
    decreases |b|
  {
    if b == [] {
      assert a + b == a;
    } else {
      var b' := b[..|b| - 1];
      assert (a + b)[..|a + b| - 1] == a + b';
      FormatErrorsConcat(a, b');
    }
  }

  /** For the two flags: the bank's error (if any) then the expected file's, each naming
      its flag and file. */
  lemma FormatErrorsOfFlags(bank: string, expected: string, bankSup: set<string>, expSup: set<string>)
    ensures var cs := FormatChecks(bank, expected, bankSup, expSup);
      FormatErrors(cs) ==
        (if Unsupported(cs[0]) then [FormatMessage(cs[0])] else [])
        + (if Unsupported(cs[1]) then [FormatMessage(cs[1])] else [])
    ensures FormatErrors(FormatChecks(bank, expected, bankSup, expSup)) == []
      <==> Detector.SuffixOf(bank) in bankSup && Detector.SuffixOf(expected) in expSup
  {
    var cs := FormatChecks(bank, expected, bankSup, expSup);
    FormatErrorsConcat([cs[0]], [cs[1]]);
    assert [cs[0]] + [cs[1]] == cs;
    assert [cs[0]][..0] == [];
  }

  const NoTransacciones: string := "No se detectaron transacciones bancarias."
  const NoEsperados: string := "No se detectaron movimientos esperados."

  /** The dictionary `ejecutar_validate` returns; `resumen` holds the two batch sizes on
      success. */
  datatype ValidateReport = ValidateReport(
    ok: bool, errores: seq<string>, errorType: Option<string>,
    config: ConfiguracionCliente, resumen: Option<(nat, nat)>)

  function Failed(cfg: ConfiguracionCliente, e: Exc): ValidateReport {
    ValidateReport(false, [Str(e)], Some(ValidateErrorType(e)), cfg, None)
  }

  /** `ejecutar_validate`, given the configuration as read (or the error reading it
      raises) and the two loaders as functions of the effective configuration. The
      loaders are the detector's; normalisation is not applied. */
  function EjecutarValidate(
    loaded: Result<ConfiguracionCliente, Exc>, enableOcr: bool, o: LimitOverrides,
    bank: string, expected: string, bankSup: set<string>, expSup: set<string>,
    loadBank: ConfiguracionCliente -> Result<seq<TransaccionBancaria>, Exc>,
    loadExp: ConfiguracionCliente -> Result<seq<MovimientoEsperado>, Exc>): Result<ValidateReport, Exc>
  {
    if loaded.Err? then Err(loaded.error)
    else
      var cfg := EffectiveConfig(loaded.value, enableOcr, o);
      var errores := FormatErrors(FormatChecks(bank, expected, bankSup, expSup));
      if errores != [] then Ok(ValidateReport(false, errores, Some("ingestion"), cfg, None))
      else match loadBank(cfg)
        case Err(e) => Ok(Failed(cfg, e))
        case Ok(txs) =>
          match loadExp(cfg)
          case Err(e) => Ok(Failed(cfg, e))
          case Ok(exps) =>
            if txs == [] then Ok(Failed(cfg, Ingestion(NoTransacciones)))
            else if exps == [] then Ok(Failed(cfg, Ingestion(NoEsperados)))
            else Ok(ValidateReport(true, [], None, cfg, Some((|txs|, |exps|))))
  }

  /** An unsupported suffix is reported as an ingestion error before either loader runs:
      the report is the same whatever the loaders would do. */
  lemma ValidateFormatFirst(
    loaded: Result<ConfiguracionCliente, Exc>, enableOcr: bool, o: LimitOverrides,
    bank: string, expected: string, bankSup: set<string>, expSup: set<string>,
    loadBank: ConfiguracionCliente -> Result<seq<TransaccionBancaria>, Exc>,
    loadExp: ConfiguracionCliente -> Result<seq<MovimientoEsperado>, Exc>,
    loadBank2: ConfiguracionCliente -> Result<seq<TransaccionBancaria>, Exc>,
    loadExp2: ConfiguracionCliente -> Result<seq<MovimientoEsperado>, Exc>)
    requires loaded.Ok?
    requires Detector.SuffixOf(bank) !in bankSup || Detector.SuffixOf(expected) !in expSup
    ensures var r := EjecutarValidate(loaded, enableOcr, o, bank, expected, bankSup, expSup, loadBank, loadExp);
      r.Ok? && !r.value.ok && r.value.errorType == Some("ingestion")
      && 1 <= |r.value.errores| <= 2
      && r == EjecutarValidate(loaded, enableOcr, o, bank, expected, bankSup, expSup, loadBank2, loadExp2)
  {
    FormatErrorsOfFlags(bank, expected, bankSup, expSup);
  }

  /** A validation succeeds exactly when both suffixes are supported, both loaders
      succeed and neither batch is empty; it then reports the two batch sizes. */
  lemma ValidateOkIff(
    loaded: Result<ConfiguracionCliente, Exc>, enableOcr: bool, o: LimitOverrides,
    bank: string, expected: string, bankSup: set<string>, expSup: set<string>,
    loadBank: ConfiguracionCliente -> Result<seq<TransaccionBancaria>, Exc>,
    loadExp: ConfiguracionCliente -> Result<seq<MovimientoEsperado>, Exc>)
    requires loaded.Ok?
    ensures var r := EjecutarValidate(loaded, enableOcr, o, bank, expected, bankSup, expSup, loadBank, loadExp);
      var cfg := EffectiveConfig(loaded.value, enableOcr, o);
      r.Ok? && r.value.config == cfg
      && (r.value.ok <==>
          Detector.SuffixOf(bank) in bankSup && Detector.SuffixOf(expected) in expSup
          && loadBank(cfg).Ok? && loadExp(cfg).Ok? && loadBank(cfg).value != [] && loadExp(cfg).value != [])
      && (r.value.ok ==> r.value.resumen == Some((|loadBank(cfg).value|, |loadExp(cfg).value|)))
      && (!r.value.ok ==> r.value.errorType.Some? && r.value.errores != [])
  {
    FormatErrorsOfFlags(bank, expected, bankSup, expSup);
  }

  /** With supported suffixes and both loaders succeeding, an empty bank batch (checked
      first) or an empty expected batch is an ingestion error. */
  lemma ValidateEmptyBatch(
    loaded: Result<ConfiguracionCliente, Exc>, enableOcr: bool, o: LimitOverrides,
    bank: string, expected: string, bankSup: set<string>, expSup: set<string>,
    loadBank: ConfiguracionCliente -> Result<seq<TransaccionBancaria>, Exc>,
    loadExp: ConfiguracionCliente -> Result<seq<MovimientoEsperado>, Exc>)
    requires loaded.Ok?
    requires Detector.SuffixOf(bank) in bankSup && Detector.SuffixOf(expected) in expSup
    requires var cfg := EffectiveConfig(loaded.value, enableOcr, o);
      loadBank(cfg).Ok? && loadExp(cfg).Ok?
    ensures var cfg := EffectiveConfig(loaded.value, enableOcr, o);
      var r := EjecutarValidate(loaded, enableOcr, o, bank, expected, bankSup, expSup, loadBank, loadExp);
      (loadBank(cfg).value == [] ==> r == Ok(ValidateReport(false, [NoTransacciones], Some("ingestion"), cfg, None)))
      && (loadBank(cfg).value != [] && loadExp(cfg).value == [] ==>
            r == Ok(ValidateReport(false, [NoEsperados], Some("ingestion"), cfg, None)))
  {
    FormatErrorsOfFlags(bank, expected, bankSup, expSup);
  }

  /** A loader's exception is reported with its message and its error type. */
  lemma ValidateLoaderError(
    loaded: Result<ConfiguracionCliente, Exc>, enableOcr: bool, o: LimitOverrides,
    bank: string, expected: string, bankSup: set<string>, expSup: set<string>,
    loadBank: ConfiguracionCliente -> Result<seq<TransaccionBancaria>, Exc>,
    loadExp: ConfiguracionCliente -> Result<seq<MovimientoEsperado>, Exc>)
    requires loaded.Ok?
    requires Detector.SuffixOf(bank) in bankSup && Detector.SuffixOf(expected) in expSup
    requires loadBank(EffectiveConfig(loaded.value, enableOcr, o)).Err?
    ensures var cfg := EffectiveConfig(loaded.value, enableOcr, o);
      var e := loadBank(cfg).error;
      EjecutarValidate(loaded, enableOcr, o, bank, expected, bankSup, expSup, loadBank, loadExp)
        == Ok(ValidateReport(false, [Str(e)], Some(ValidateErrorType(e)), cfg, None))
  {
    FormatErrorsOfFlags(bank, expected, bankSup, expSup);
  }

  // ---------------------------------------------------------------------------
  // Run fingerprint and run id

  /** The fingerprint `ejecutar_run` builds from the three file digests, the mask flag and
      the effective configuration. */
  function Fingerprint(configSha: Digest, bankSha: Digest, expectedSha: Digest, mask: bool, cfg: ConfiguracionCliente): (r: RunSchema.RunFingerprint)
    ensures RunSchema.ValidFingerprint(r)
    ensures r.permitirOcr == cfg.permitirOcr && r.mask == mask
  {
    RunSchema.RunFingerprint(configSha, bankSha, expectedSha, mask, cfg.permitirOcr, ModeloInternoVersion, Version.PackageVersion)
  }

  /** `run_id`: the first 16 characters of the stable hash of the fingerprint. */
  function RunId(sha256: string -> Digest, fp: RunSchema.RunFingerprint): (r: string)
    ensures |r| == 16
    ensures StartsWith(sha256(StableHashText(RunSchema.DumpFingerprint(fp))), r)
  {
    DigestPrefix(Sha256JsonEstable(sha256, RunSchema.DumpFingerprint(fp)), 16)
  }

  /** The run id depends on the fingerprint alone: two runs over files with the same
      digests, with the same mask and the same effective OCR switch, get the same id,
      whatever their other settings. */
  lemma RunIdOfFingerprintOnly(sha256: string -> Digest, configSha: Digest, bankSha: Digest, expectedSha: Digest,
                               mask: bool, cfg1: ConfiguracionCliente, cfg2: ConfiguracionCliente,
                               ocr1: bool, ocr2: bool, o1: LimitOverrides, o2: LimitOverrides)
    requires ocr1 || cfg1.permitirOcr <==> ocr2 || cfg2.permitirOcr
    ensures RunId(sha256, Fingerprint(configSha, bankSha, expectedSha, mask, EffectiveConfig(cfg1, ocr1, o1)))
         == RunId(sha256, Fingerprint(configSha, bankSha, expectedSha, mask, EffectiveConfig(cfg2, ocr2, o2)))
  {
  }

  /** The fingerprint a run writes is read back unchanged by the run.json contract. */
  lemma FingerprintRoundTrip(configSha: Digest, bankSha: Digest, expectedSha: Digest, mask: bool, cfg: ConfiguracionCliente, mode: RunSchema.Mode)
    ensures var fp := Fingerprint(configSha, bankSha, expectedSha, mask, cfg);
      RunSchema.ParseFingerprint(RunSchema.DumpFingerprint(fp), mode) == Ok(fp)
  {
    RunSchemaLemmas.ParseDumpFingerprint(Fingerprint(configSha, bankSha, expectedSha, mask, cfg), mode);
  }
}
