# conciliador_bancario: a verified model of the core

`conciliador_bancario` reconciles Chilean bank statements against the movements a
company expects. Its phase-1 core reads bank and expected-movement files (XLSX, XML and,
as a blocked-for-review fallback, OCR of scanned PDFs), turns each row or element into a
validated record with per-field confidence metadata, writes an append-only JSONL audit
log, and publishes a `run.json` artefact whose contract is checked by a strict producer
validator and a forward-compatible consumer validator. CI tooling guards releases: a
changelog bumper, a `pip-audit` gate with expiring ignores, a secret scan, a boundary
check against the premium product, and a release-tag verifier.

This Dafny project models that core and proves what it promises:

- `RunSchema`, `RunSchemaLemmas`, `PremiumRunJson`, `Json`, `Semver`, `Version`: the
  `run.json` contract, the SemVer parser both validators and the package version share,
  and the canonical JSON encoder (sorted keys, compact separators, ASCII escaping as in
  section 7 of RFC 8259, trailing newline). The producer's duplicate-id loop is a method
  proved against the function that specifies it.
- `Models`: validity of confidence metadata, bank transactions, expected movements,
  matches, findings, ingestion limits and the client configuration, with the order in
  which pydantic reports errors.
- `Parsing`, `Normalizer`, `Masking`: the Chilean peso amount parser (exact decimals,
  half-even rounding to an integer), the five-layout date parser (its format loop is a
  method), the text and reference normalisers, and RUT and account masking.
- `AuditLog`, `Limits`, `Detector`, `XlsxAdapter`, `XmlAdapter`, `PdfOcrAdapter`: the
  audit writer as a class whose `lines` field grows with each write, the fail-closed
  ingestion limits, suffix dispatch, and the adapters' row, element and line loops,
  which are methods proved against functions of their inputs.
- `Pipeline`, `CliErrors`, `Errors`: limit overrides, the error type `validate`
  reports, the validate checks, the run id, and the CLI's exit-code classification and
  error rendering.
- `BumpChangelog`, `PipAuditGate`, `SecretScan`, `CheckBoundaries`, `GitTree`,
  `VerifyReleaseTag`: the release tools, with git, the file system, the environment and
  today's date as inputs.
- `PyStr`, `Bytes`, `Calendar`, `Common`, `Hashing`: the Python string, bytes and date
  operations the core relies on, written out, and the stable hash with SHA-256 as a
  parameter.

The normalisers use the raw pattern `r"\\s+"`
(src/conciliador_bancario/utils/parsing.py, lines 71 and 75, and
src/conciliador_bancario/utils/masking.py, line 15). That pattern matches a backslash
followed by a run of `s`, not whitespace, and the model follows the code as written: the
normalisers strip the text and remove or replace those backslash runs, and
`Parsing.NormalizarTextoNotIdempotent` shows that `normalizar_texto` applied twice can
differ from applying it once. The repository's normalisation test
(tests/test_normalization.py, lines 62 to 66) expects runs of whitespace to be collapsed
(`"Transferencia a ACME"`, `"FAC-1001"`) and reaches the normalisers through
`normalizar_lote`, which is not defined; the code as written does not collapse
whitespace, and the model follows the code.

Where the consumer-facing `ejecutar_validate` refers to names the repository does not
define (`BANK_SUPPORTED_SUFFIXES`, `EXPECTED_SUPPORTED_SUFFIXES`, `normalizar_lote`), the
model takes the supported suffix sets as parameters and leaves out the normalisation
step.

## Model

| member | source | states |
|---|---|---|
| Models.MakeMetadata | src/conciliador_bancario/models.py:34-38 | confidence metadata is accepted exactly when its score lies in [0, 1], and is then returned unchanged; otherwise the error names `score` |
| Models.MakeTransaccion | src/conciliador_bancario/models.py:49-87 | a bank transaction is accepted exactly when every field constraint and `_validar_bloqueo` hold, and is then returned unchanged; a field error names at least one field; a validator error is raised only once the field constraints hold |
| Models.BlockedNeedsMotivo | src/conciliador_bancario/models.py:65-68 | a blocked transaction whose reason is missing or only whitespace is refused with the "motivo requerido" message |
| Models.BadMonedaRefused | src/conciliador_bancario/models.py:46-58 | a currency outside `[A-Z]{3}` is refused as a field error naming `moneda` |
| Models.MakeMovimiento | src/conciliador_bancario/models.py:90-119 | an expected movement is accepted exactly when its field constraints and `_validar_tipos` hold; same error shape as for transactions |
| Models.FechaCheckedFirst | src/conciliador_bancario/models.py:99-102 | with valid fields, a non-date `fecha` is reported first, whatever the other fields hold |
| Models.MakeMatch | src/conciliador_bancario/models.py:129-137 | a match is accepted exactly when id, rule and explanation are non-empty, the score is in [0, 1] and both id lists are non-empty |
| Models.MatchNeedsTransacciones | src/conciliador_bancario/models.py:135 | a match without bank transactions is refused naming `transacciones_bancarias` |
| Models.MakeHallazgo | src/conciliador_bancario/models.py:146-153 | a finding is accepted exactly when id, type and message are non-empty |
| Models.DefaultLimites | src/conciliador_bancario/models.py:156-170 | the default ingestion limits are 25 000 000 bytes, 200 000 rows, 5 000 000 cells, 200 pages, 5 000 000 characters and 200 000 movimientos, all valid |
| Models.MakeLimites | src/conciliador_bancario/models.py:156-170 | limits are accepted exactly when each is at least 1 |
| Models.ZeroLimitRefused | src/conciliador_bancario/models.py:168 | a zero page limit is refused naming `max_pdf_pages` |
| Models.MakeConfig | src/conciliador_bancario/models.py:173-182 | a configuration is accepted exactly when its client name is non-empty, the window is non-negative, both thresholds are in [0, 1], the currency matches `[A-Z]{3}`; a limits instance passed in is not checked again |
| Models.DefaultConfig | src/conciliador_bancario/models.py:173-182 | the defaulted configuration has window 3, thresholds 0.85 and 0.80, OCR off, masking on, currency CLP and the default limits |
| Models.DefaultConfigValid | src/conciliador_bancario/models.py:173-182 | the defaulted configuration is accepted exactly when the client name is non-empty |
| Masking.EnmascararRut | src/conciliador_bancario/utils/masking.py:6-11 | the mask starts with three stars; a stripped text of at most three characters gives exactly `***`, a longer one six characters ending in its last three |
| Masking.EnmascararRutIdempotent | src/conciliador_bancario/utils/masking.py:6-11 | masking a masked RUT changes nothing |
| Masking.EnmascararCuenta | src/conciliador_bancario/utils/masking.py:14-18 | the mask is four stars for a cleaned text of at most four characters; otherwise it has the cleaned text's length, is stars except the last four, which end the cleaned text |
| Masking.MaskingExposesLittle | src/conciliador_bancario/utils/masking.py:6-18 | an account mask shows at most four characters that are not stars, a RUT mask at most three |
| Normalizer.NormalizerShape | src/conciliador_bancario/normalization/normalizer.py:6-11 | a normalised reference holds no lower-case ASCII letter, and both entry points map the empty text to itself |
| Hashing.Sha256JsonEstable | src/conciliador_bancario/utils/hashing.py:17-19 | the stable hash is the digest of the compact, sorted-key, ASCII JSON text, with no newline |
| Version.ParseVersion | src/conciliador_bancario/version.py:9-16 | `_parse_semver` succeeds exactly when the SemVer pattern matches, returns the parsed triple, and otherwise raises carrying the offending text |
| Version.VersionInfo | src/conciliador_bancario/version.py:19 | `__version_info__` is (0, 2, 0) |
| Version.PackageVersionParses | src/conciliador_bancario/version.py:7-19 | `"0.2.0"` is the SemVer text of (0, 2, 0) and parses back to it |
| Parsing.KeepAmountChars | src/conciliador_bancario/utils/parsing.py:12-28 | `_MONEDA_RE.sub` keeps only digits, `,`, `.`, `-` and backslash, in order, leaves text made only of those unchanged, and creates no digit |
| Parsing.NormalizeSeparators | src/conciliador_bancario/utils/parsing.py:29-39 | after the separator rules no `,` is left, and no `.` either unless both kinds were present; no digit is created |
| Parsing.ParseDecimalNegative | src/conciliador_bancario/utils/parsing.py:40-43 | `Decimal` of `-` and an unsigned body is the negated body, and fails when the body fails |
| Parsing.RoundHalfEven | src/conciliador_bancario/utils/parsing.py:45 | `quantize(Decimal("1"))` lands within half a unit of the exact value, and on an even integer at an exact tie |
| Parsing.RoundHalfEvenUnique | src/conciliador_bancario/utils/parsing.py:45 | any integer within half a unit, even at a tie, is that rounding: the rounding is the nearest integer, ties to even |
| Parsing.RoundHalfEvenTies | src/conciliador_bancario/utils/parsing.py:45 | 2.5 rounds to 2, 3.5 to 4, -2.5 to -2 and 1234.00 to 1234 |
| Parsing.ParseMontoClp | src/conciliador_bancario/utils/parsing.py:15-45 | `parse_monto_clp` raises "Monto vacio" exactly for a blank text, otherwise raises only "Monto invalido" with the original text, and always raises on a text with no digit |
| Parsing.ParseMontoOfInt | tests/test_property_parsing.py:11-15 | every integer's decimal text parses back to that integer |
| Parsing.ParseMontoFixedPoint | tests/test_property_parsing.py:16 | re-parsing the text of a parsed amount gives the same amount |
| Parsing.ParseFecha | src/conciliador_bancario/utils/parsing.py:48-67 | `parse_fecha_chile` raises "Fecha vacia" exactly for a blank text, otherwise only "Fecha invalida" with the original text; a result is a valid date with a year of at least 100 |
| Parsing.FirstFormatUnrolled | src/conciliador_bancario/utils/parsing.py:58-66 | the five formats are tried in order and the first that reads the text wins |
| Parsing.Strptime | src/conciliador_bancario/utils/parsing.py:60 | `strptime` yields only valid calendar dates |
| Parsing.YearValue | src/conciliador_bancario/utils/parsing.py:60 | a four-digit `%Y` gives 0..9999, a two-digit `%y` a year in 1969..2068 |
| Parsing.TryFormatOf | src/conciliador_bancario/utils/parsing.py:59-64 | a format's date is kept when its year is at least 100 and moved forward by 2000 years otherwise |
| Parsing.IsoRefusedByDmyDash | src/conciliador_bancario/utils/parsing.py:58-60 | an ISO text is not read by the first format `%d-%m-%Y` |
| Parsing.ParseIsoFormat | tests/test_property_parsing.py:19-23 | every valid date from year 100 on reads back from its `yyyy-mm-dd` text |
| Parsing.ParseIsoFormatShortYear | src/conciliador_bancario/utils/parsing.py:58-64 | a `yyyy-mm-dd` text with a year below 100 reads back 2000 years later |
| Parsing.ParseDmySlash | tests/test_property_parsing.py:19-22 | every valid date from year 100 on reads back from its `dd/mm/yyyy` text |
| Parsing.ShortRefusedByDmySlash | src/conciliador_bancario/utils/parsing.py:58-60 | a `dd/mm/yy` text is not read by `%d/%m/%Y`, which needs four year digits |
| Parsing.ParseDmySlashShort | src/conciliador_bancario/utils/parsing.py:58-64 | every valid date in 1969..2068 reads back from its `dd/mm/yy` text |
| Parsing.ParseTwoDigitYear | tests/test_parsing.py:31-41 | `"05/01/26"` gives 2026-01-05 |
| Parsing.ParseErrorMessagePrintable | src/conciliador_bancario/utils/parsing.py:43-67 | every parse error message is printable text: the `repr` of the rejected text inside it escapes what Python would not print |
| PyStr.Repr | src/conciliador_bancario/utils/parsing.py:43 | `repr` of a text starts and ends with its chosen quote and writes only printable characters |
| PyStr.ReprNoBreakSpace | src/conciliador_bancario/utils/parsing.py:43 | inside a `repr`, a no-break space is written `\xa0` |
| PyStr.ReprLineSeparator | src/conciliador_bancario/utils/parsing.py:43 | inside a `repr`, the line separator U+2028 is written `\u2028` |
| PyStr.PathName | src/conciliador_bancario/ingestion/detector.py:45 | the name of a path holds no separator |
| PyStr.PathNameOfDir | src/conciliador_bancario/ingestion/detector.py:45 | a path with a trailing separator is named by its last component, as `Path("a/b/").name == "b"` |
| Parsing.SubBackslashS | src/conciliador_bancario/utils/parsing.py:71 | substituting the literal `\\s+` pattern leaves text without a backslash-`s` run unchanged, and keeps the empty text empty |
| Parsing.NormalizarTexto | src/conciliador_bancario/utils/parsing.py:70-71 | `normalizar_texto` of a text without backslash-`s` runs is its stripped text |
| Parsing.NormalizarReferencia | src/conciliador_bancario/utils/parsing.py:74-75 | `normalizar_referencia` holds no lower-case ASCII letter and is the upper-cased stripped text when no backslash-`s` run occurs |
| Parsing.NormalizarTextoSubIdempotent | src/conciliador_bancario/utils/parsing.py:70-71 | the substitution finds nothing more in a normalised text |
| Parsing.NormalizarTextoKeepsSpaces | src/conciliador_bancario/utils/parsing.py:70-71 | `"a  b"` keeps both spaces: the pattern as written does not collapse whitespace |
| Semver.DollarBody | src/conciliador_bancario/core/contracts/run_schema.py:11 | the text `$` lets the match end on is the whole text or the text without one final newline |
| Semver.ParseFormat | src/conciliador_bancario/core/contracts/run_schema.py:11-18 | the text of any triple, with or without a trailing newline, parses back to that triple |
| Semver.ParseSound | src/conciliador_bancario/core/contracts/run_schema.py:11-18 | every accepted text is the canonical text of its triple, possibly followed by one newline |
| Semver.ParseIff | src/conciliador_bancario/core/contracts/run_schema.py:11-18 | a text is accepted exactly when it is the canonical text of some triple, with or without one trailing newline |
| Semver.LeadingZeroRefused | src/conciliador_bancario/core/contracts/run_schema.py:11 | three digit runs whose first has a leading zero have the shape `\d+.\d+.\d+` yet are refused |
| Semver.ParseLeadingZero | src/conciliador_bancario/core/contracts/run_schema.py:11 | `"01.0.0"` is refused |
| Semver.ParseSchemaVersion | src/conciliador_bancario/core/contracts/run_schema.py:9-18 | `"1.0.0"` parses to (1, 0, 0) |
| Semver.FormatIsDottedTriple | src/conciliador_bancario/core/contracts/run_schema.py:11 | the canonical text of a triple has the shape `\d+.\d+.\d+` |
| RunSchema.ReqStr | src/conciliador_bancario/core/contracts/run_schema.py:27-59 | a required `str` field with `min_length=1` is accepted exactly when present, a string and non-empty, and the value is that string |
| RunSchema.ReqBool | src/conciliador_bancario/core/contracts/run_schema.py:30-44 | a `bool` field is accepted exactly when it is a boolean; when missing, exactly when it has a default, which is then the value |
| RunSchema.ReqNumber | src/conciliador_bancario/core/contracts/run_schema.py:39 | a strict `float` field is accepted exactly when present and a number, and is stored as a float: a float as given, an integer `i` as the float `i.0` |
| RunSchema.StrItems | src/conciliador_bancario/core/contracts/run_schema.py:42-43 | a `list[str]` is accepted exactly when every item is a string, keeping the items in order |
| RunSchema.ReqStrList | src/conciliador_bancario/core/contracts/run_schema.py:42-43 | an accepted id list is non-empty and holds the given strings in order |
| RunSchema.OptStr | src/conciliador_bancario/core/contracts/run_schema.py:53 | an optional string defaults to None when missing and accepts exactly null or a string |
| RunSchema.ReqDict | src/conciliador_bancario/core/contracts/run_schema.py:54-142 | `detalles` is accepted exactly when an object; when missing, only by the producer, which fills in `{}` |
| RunSchema.ParseFingerprint | src/conciliador_bancario/core/contracts/run_schema.py:26-33 | an accepted fingerprint is an object with non-empty hashes and versions, and has no unknown key in producer mode |
| RunSchema.ParseMatch | src/conciliador_bancario/core/contracts/run_schema.py:36-44 | an accepted match is valid and has no unknown key in producer mode; the consumer requires `bloqueado_por_confianza`, the producer defaults it to false |
| RunSchema.ParseHallazgo | src/conciliador_bancario/core/contracts/run_schema.py:47-54 | an accepted finding is valid (its `entidad` one of four literals) and has no unknown key in producer mode; the consumer requires `detalles`, the producer defaults it to `{}` and `entidad_id` to None |
| RunSchema.ParseMatches | src/conciliador_bancario/core/contracts/run_schema.py:61 | the match list is accepted exactly when every item is, item by item and in order |
| RunSchema.ParseHallazgos | src/conciliador_bancario/core/contracts/run_schema.py:62 | the finding list is accepted exactly when every item is, item by item and in order |
| RunSchema.ParseFields | src/conciliador_bancario/core/contracts/run_schema.py:57-62 | an accepted payload is valid and has no unknown top-level key in producer mode |
| RunSchema.CheckMatchInvariant | src/conciliador_bancario/core/contracts/run_schema.py:75-92 | the loop over matches with its `seen_tx`/`seen_exp` dictionaries gives the same verdict as the recursive definition |
| RunSchema.ScanIdsSpec | src/conciliador_bancario/core/contracts/run_schema.py:79-85 | the inner id loop passes exactly when no id was seen under another match id, and leaves every id mapped to the current match |
| RunSchema.CheckFromSpec | src/conciliador_bancario/core/contracts/run_schema.py:76-92 | the match loop passes exactly when bank ids and expected ids are each consistent with what was seen before |
| RunSchema.MatchInvariantIff | src/conciliador_bancario/core/contracts/run_schema.py:75-92 | the invariant passes exactly when every bank id and every expected id is listed only under one match id; repeats within one match id pass |
| RunSchema.DumpFingerprint | src/conciliador_bancario/core/contracts/run_schema.py:106 | the dump of a fingerprint has exactly its seven keys |
| RunSchema.DumpMatch | src/conciliador_bancario/core/contracts/run_schema.py:106 | the dump of a match has exactly its eight keys, the default included |
| RunSchema.DumpHallazgo | src/conciliador_bancario/core/contracts/run_schema.py:106 | the dump of a finding has exactly its seven keys, the defaults included |
| RunSchema.DumpPayload | src/conciliador_bancario/core/contracts/run_schema.py:106 | the dump of a payload has exactly its five keys |
| RunSchema.DefaultMajor | src/conciliador_bancario/core/contracts/run_schema.py:165-167 | the major `accept_major=None` stands for is 1 |
| RunSchemaLemmas.ValidateParts | src/conciliador_bancario/core/contracts/run_schema.py:97-106 | an accepted payload parses strictly, carries version `"1.0.0"`, passes the invariant and is returned as the dump of the parsed record |
| RunSchemaLemmas.ValidateConsumerParts | src/conciliador_bancario/core/contracts/run_schema.py:163-172 | a payload the consumer accepts is returned as the dump of its lenient parse |
| RunSchemaLemmas.ParseDumpPayload | src/conciliador_bancario/core/contracts/run_schema.py:57-106 | a dumped valid payload parses back to the same record, in either mode |
| RunSchemaLemmas.ProducerAcceptsIff | src/conciliador_bancario/core/contracts/run_schema.py:64-94 | once the fields parse, the producer accepts exactly when the version is `"1.0.0"` and no bank or expected id is listed under two match ids |
| RunSchemaLemmas.ProducerRejectsOtherVersion | src/conciliador_bancario/core/contracts/run_schema.py:66-70 | any other version is refused with the unexpected-version error naming it |
| RunSchemaLemmas.ProducerForbidsExtra | src/conciliador_bancario/core/contracts/run_schema.py:21-23 | an accepted payload has no unknown key at any level |
| RunSchemaLemmas.ProducerIdempotent | src/conciliador_bancario/core/contracts/run_schema.py:97-106 | validating the producer's output again gives the same output |
| RunSchemaLemmas.ProducerOutputPassesConsumer | src/conciliador_bancario/core/contracts/run_schema.py:97-172 | the consumer with the default major accepts the producer's output and returns it unchanged |
| RunSchemaLemmas.ProducerDefaultBloqueado | src/conciliador_bancario/core/contracts/run_schema.py:44 | a match without `bloqueado_por_confianza` comes out with it set to false |
| RunSchemaLemmas.IntScoreDumpsAsFloat | src/conciliador_bancario/core/contracts/run_schema.py:39 | an integer score of an accepted match is dumped as the float `i.0`, in either mode |
| RunSchemaLemmas.FloatScoreKept | src/conciliador_bancario/core/contracts/run_schema.py:39 | a float score of an accepted match is dumped as given, in either mode |
| RunSchemaLemmas.ProducerDefaultsHallazgo | src/conciliador_bancario/core/contracts/run_schema.py:53-54 | a finding comes out with `entidad_id` and `detalles`, null and `{}` when they were missing |
| RunSchemaLemmas.ConsumerAcceptsIff | src/conciliador_bancario/core/contracts/run_schema.py:163-172 | once the fields parse, the consumer accepts exactly when the version is SemVer with the wanted major (1 by default) |
| RunSchemaLemmas.ConsumerIgnoresUnknownField | src/conciliador_bancario/core/contracts/run_schema.py:109-111 | adding an unknown top-level key changes nothing in the consumer's verdict or output |
| RunSchemaLemmas.ConsumerDropsUnknownFields | src/conciliador_bancario/core/contracts/run_schema.py:109-172 | the consumer's output holds exactly the known keys at every level |
| RunSchemaLemmas.ConsumerRequiresNoDefaults | src/conciliador_bancario/core/contracts/run_schema.py:132-142 | the consumer accepts only matches with `bloqueado_por_confianza` and findings with `detalles` |
| PremiumRunJson.PyIntOfIntToString | src/conciliador_bancario/core/premium_contracts/run_json.py:16 | `int()` reads back the decimal text of every integer |
| PremiumRunJson.PyIntSignAndSpace | src/conciliador_bancario/core/premium_contracts/run_json.py:16 | `int()` accepts surrounding whitespace and a `+` sign |
| PremiumRunJson.PyIntDoubleUnderscore | src/conciliador_bancario/core/premium_contracts/run_json.py:16 | `int()` refuses a doubled underscore |
| PremiumRunJson.SchemaMajor | src/conciliador_bancario/core/premium_contracts/run_json.py:11-20 | `_schema_major` succeeds only when the stripped text splits into three parts on `.`, and returns `int` of the first; otherwise it raises carrying the given text |
| PremiumRunJson.SchemaMajorOfParts | src/conciliador_bancario/core/premium_contracts/run_json.py:11-16 | any text splitting into three parts whose first is an integer literal gives that integer |
| PremiumRunJson.SchemaMajorOfSemver | src/conciliador_bancario/core/premium_contracts/run_json.py:11-16 | the major of any SemVer text is its first number |
| PremiumRunJson.SchemaMajorIgnoresMinorPatch | src/conciliador_bancario/core/premium_contracts/run_json.py:12-16 | only the first part is read: `"1.x.y"` gives 1 |
| PremiumRunJson.SchemaMajorTwoParts | src/conciliador_bancario/core/premium_contracts/run_json.py:13-14 | a text with two parts is refused |
| PremiumRunJson.SupportedRunJsonSchemaMajor | src/conciliador_bancario/core/premium_contracts/run_json.py:24 | `SUPPORTED_RUN_JSON_SCHEMA_MAJOR` is 1 |
| PremiumRunJson.PremiumIsDefaultConsumer | src/conciliador_bancario/core/premium_contracts/run_json.py:27-35 | the premium validator is the consumer validator with its default major |
| PremiumRunJson.ConsumerWantsDefault | src/conciliador_bancario/core/premium_contracts/run_json.py:24-35 | asking the consumer for major 1 explicitly is the same as leaving it to the default |
| Json.SortedKeys | src/conciliador_bancario/core/contracts/run_json_codec.py:16 | `sort_keys=True` lists each key once, in ascending code-point order |
| Json.LeastUnique | src/conciliador_bancario/core/contracts/run_json_codec.py:16 | the least key is unique, so the sorted key order is determined by the key set alone |
| Json.EncodePrintable | src/conciliador_bancario/core/contracts/run_json_codec.py:11-16 | every character of an encoding is printable ASCII, with no raw line break |
| Json.EscapePrintable | src/conciliador_bancario/core/contracts/run_json_codec.py:11 | `ensure_ascii=True` escapes every character outside printable ASCII, so an escaped string is printable ASCII |
| Json.CanonicalJsonDumpsShape | src/conciliador_bancario/core/contracts/run_json_codec.py:9-16 | `canonical_json_dumps` ends in one newline, holds no other line break, and is printable ASCII before it |
| Json.CanonicalIsStableHashText | src/conciliador_bancario/core/contracts/run_json_codec.py:16 | the canonical text is the stable-hash text followed by one newline |
| Limits.LimitEvent | src/conciliador_bancario/ingestion/limits.py:26-30 | the `ingestion_limit` event carries the file name under `archivo` and every detail, a detail overriding `archivo` |
| Limits.AuditAndRaise | src/conciliador_bancario/ingestion/limits.py:17-34 | the ingestion error is raised whether or not the audit write succeeds; a failed write leaves the log unchanged and writes one note to stderr |
| Limits.EnforceFileSize | src/conciliador_bancario/ingestion/limits.py:37-62 | a size up to the maximum passes with no event; a larger one logs one limit event with its details and fails with the message naming both sizes and both overrides |
| Limits.EnforceCounter | src/conciliador_bancario/ingestion/limits.py:65-91 | a counter up to its maximum passes with no event; a larger one logs one limit event and fails with the message naming the counter |
| Limits.FileSizeMessageNames | src/conciliador_bancario/ingestion/limits.py:51-54 | the file-size message names the size, the maximum, the config path and the CLI flag |
| Limits.CounterMessageNames | src/conciliador_bancario/ingestion/limits.py:80-83 | the counter message names the counter, its value, its maximum, the config path and the CLI flag |
| AuditLog.EventJson | src/conciliador_bancario/audit/audit_log.py:23-28 | an event's line is printable ASCII with no line break inside it |
| AuditLog.EventJsonKeys | src/conciliador_bancario/audit/audit_log.py:23-28 | the line is one object with exactly the keys `detalles`, `mensaje`, `tipo`, written in that order, compact |
| AuditLog.SortedThree | src/conciliador_bancario/audit/audit_log.py:26 | three keys in ascending order are emitted in that order |
| AuditLog.JsonlAuditWriter.constructor | src/conciliador_bancario/audit/audit_log.py:18-20 | opening the writer keeps what the log already holds |
| AuditLog.JsonlAuditWriter.Write | src/conciliador_bancario/audit/audit_log.py:22-30 | `write` appends the event's line and a newline to the file, or raises the OSError and changes nothing |
| AuditLog.LinesRoundTrip | src/conciliador_bancario/audit/audit_log.py:22-30 | a log made by `write` alone reads back, line by line, as one line per event in order |
| AuditLog.NullAuditWriter.Write | src/conciliador_bancario/audit/audit_log.py:33-35 | the null writer accepts every event |
| AuditLog.AuditFailure | src/conciliador_bancario/audit/audit_log.py:29-30 | a sink reports a failure exactly when its writes raise |
| AuditLog.AddedAppend | src/conciliador_bancario/audit/audit_log.py:22-30 | two successful writes add the lines of both, in order |
| AuditLog.Emit | src/conciliador_bancario/audit/audit_log.py:22-35 | a write on either writer either adds the event's line or raises and adds nothing |
| Detector.BankDispatch | src/conciliador_bancario/ingestion/detector.py:25-45 | `.csv`, `.xlsx` and `.xml` go to their own loader, and any suffix other than those and `.pdf` raises ErrorIngestion naming the file |
| Detector.SuffixCaseInsensitive | src/conciliador_bancario/ingestion/detector.py:28 | the suffix is compared in lower case, so an upper-case suffix picks the same loader |
| Detector.TextPdfSkipsOcr | src/conciliador_bancario/ingestion/detector.py:35-38 | a PDF with extractable text returns the text loader's transactions whatever the OCR setting and OCR loader |
| Detector.ScannedPdf | src/conciliador_bancario/ingestion/detector.py:37-44 | a scanned-looking PDF raises the OCR-disabled error unless OCR is allowed, and then is the OCR loader's outcome |
| Detector.CargarMovimientosEsperados | src/conciliador_bancario/ingestion/detector.py:48-57 | `.csv` and `.xlsx` go to their loaders with no event; any other suffix writes one `ingestion` event and raises |
| Detector.ExpUnsupportedRaises | src/conciliador_bancario/ingestion/detector.py:56-57 | an unsupported expected file raises ErrorIngestion naming it, or the audit write's own error when that write fails |
| XlsxAdapter.KeptRowNumbers | src/conciliador_bancario/ingestion/xlsx_adapter.py:123-125 | every kept row is numbered from 2 on, within the sheet |
| XlsxAdapter.KeptRowNumbersSound | src/conciliador_bancario/ingestion/xlsx_adapter.py:123-125 | the kept rows are not blank and are numbered in ascending order |
| XlsxAdapter.KeptRowNumbersComplete | src/conciliador_bancario/ingestion/xlsx_adapter.py:123-125 | every row that is not blank is kept |
| XlsxAdapter.RowResultsAt | src/conciliador_bancario/ingestion/xlsx_adapter.py:123-166 | the loop makes one result per kept row, the j-th from the j-th kept row and its number |
| XlsxAdapter.LoadRows | src/conciliador_bancario/ingestion/xlsx_adapter.py:120-167 | the row loop skips the header and returns the records of the kept rows, or the first row's failure |
| XlsxAdapter.RowsFromError | src/conciliador_bancario/ingestion/xlsx_adapter.py:126-131 | a failing load fails with the error of some kept row, every earlier kept row having succeeded |
| XlsxAdapter.XlsxConfianza | src/conciliador_bancario/ingestion/xlsx_adapter.py:32-40 | `_campo` gives a score in [0, 1] equal to 0.90 minus the degrade, `alta` exactly from 0.85 and `baja` exactly below 0.55 |
| XlsxAdapter.XlsxLevels | src/conciliador_bancario/ingestion/xlsx_adapter.py:156-157 | a plain field is `alta` at 0.90, an accounting date `media` at 0.80, a third party `media` at 0.70 |
| XlsxAdapter.AsDate | src/conciliador_bancario/ingestion/xlsx_adapter.py:51-56 | a date or datetime cell gives its date, an empty cell fails as an empty date, and any result is a real calendar date |
| XlsxAdapter.KeyNorm | src/conciliador_bancario/ingestion/xlsx_adapter.py:59-60 | a normalised header key holds no space |
| XlsxAdapter.HeaderMapSound | src/conciliador_bancario/ingestion/xlsx_adapter.py:63-66 | each header key maps to the last column whose normalised text it is |
| XlsxAdapter.HeaderMapComplete | src/conciliador_bancario/ingestion/xlsx_adapter.py:63-66 | every non-empty header cell's key is in the map |
| XlsxAdapter.FirstQualifying | src/conciliador_bancario/ingestion/xlsx_adapter.py:74-88 | the chosen sheet is the first whose header has one alias of every required group |
| XlsxAdapter.HasAllGroups | src/conciliador_bancario/ingestion/xlsx_adapter.py:81-85 | the group loop accepts a header exactly when every group has an alias in it |
| XlsxAdapter.SelectWorksheetWithColumns | src/conciliador_bancario/ingestion/xlsx_adapter.py:69-88 | the first qualifying sheet is chosen, and when none qualifies ErrorIngestion is raised with the fixed message |
| XlsxAdapter.Col | src/conciliador_bancario/ingestion/xlsx_adapter.py:104-108 | `col` finds nothing exactly when no name is in the header |
| XlsxAdapter.ColFirst | src/conciliador_bancario/ingestion/xlsx_adapter.py:104-108 | `col` returns the column of the first name present |
| XlsxAdapter.ColOfGroup | src/conciliador_bancario/ingestion/xlsx_adapter.py:110-114 | a required column is always found in a qualifying sheet |
| XlsxAdapter.CellAt | src/conciliador_bancario/ingestion/xlsx_adapter.py:127 | `row[c]` succeeds exactly when the column is inside the row, and otherwise raises IndexError |
| XlsxAdapter.OptDateAt | src/conciliador_bancario/ingestion/xlsx_adapter.py:128 | the accounting date is None when its column is missing or its cell is empty |
| XlsxAdapter.TextAt | src/conciliador_bancario/ingestion/xlsx_adapter.py:134 | the text of a cell inside the row, or the IndexError |
| XlsxAdapter.OptTextAt | src/conciliador_bancario/ingestion/xlsx_adapter.py:133-137 | an optional column that is missing reads as empty text |
| XlsxAdapter.MonedaOf | src/conciliador_bancario/ingestion/xlsx_adapter.py:133 | an empty currency cell falls back to the configured default, upper-cased |
| XlsxAdapter.RefOf | src/conciliador_bancario/ingestion/xlsx_adapter.py:135-136 | a reference holds no lower-case letter |
| XlsxAdapter.RecordId | src/conciliador_bancario/ingestion/xlsx_adapter.py:43-44 | an id is the prefix, a dash and twelve hex characters |
| XlsxAdapter.RecordIdIgnoresDirectory | src/conciliador_bancario/ingestion/xlsx_adapter.py:43-44 | the id depends on the file name only, not on its directory |
| XlsxAdapter.MaskedCuenta | src/conciliador_bancario/ingestion/xlsx_adapter.py:137-153 | an account is masked, exposing at most four characters, and absent exactly when its cell is empty |
| XlsxAdapter.AssembleTx | src/conciliador_bancario/ingestion/xlsx_adapter.py:150-166 | the bank record holds the given id, currency and account, comes from the xlsx loader with no block, and carries its row number |
| XlsxAdapter.BankRecord | src/conciliador_bancario/ingestion/xlsx_adapter.py:133-166 | a bank row's record has a `TX-` id, the row number, the file name, a masked account and `alta` date and amount; it is valid exactly when its currency is valid and the file has a name |
| XlsxAdapter.BankValidate | src/conciliador_bancario/ingestion/xlsx_adapter.py:150-166 | building the record fails with a validation error exactly when the model would reject it |
| XlsxAdapter.BankRow | src/conciliador_bancario/ingestion/xlsx_adapter.py:126-166 | a parse failure is reported as `Fila n: parseo invalido`, and an accepted row is a valid xlsx record numbered by its row |
| XlsxAdapter.BankFinishAccepted | src/conciliador_bancario/ingestion/xlsx_adapter.py:133-166 | a row whose cells are present, whose currency is valid and whose file has a name is accepted |
| XlsxAdapter.BankRowsFacts | src/conciliador_bancario/ingestion/xlsx_adapter.py:120-167 | a successful load holds one valid xlsx record per kept row, in order, each numbered by its row |
| XlsxAdapter.CargaBanco | src/conciliador_bancario/ingestion/xlsx_adapter.py:91-118 | no qualifying sheet raises before any event, and a failing audit write raises its own error |
| XlsxAdapter.CargarTransaccionesXlsx | src/conciliador_bancario/ingestion/xlsx_adapter.py:91-167 | the bank loader logs one `XLSX banco cargado` event naming the sheet, after the sheet is chosen and before the rows are read |
| XlsxAdapter.AssembleMov | src/conciliador_bancario/ingestion/xlsx_adapter.py:229-238 | the expected movement holds the given id and currency with `alta` date and amount, and a third party at `media` 0.70 when there is one |
| XlsxAdapter.ExpId | src/conciliador_bancario/ingestion/xlsx_adapter.py:226 | an external id is kept, and otherwise the id is `EXP-` and twelve hex characters |
| XlsxAdapter.ExpRecord | src/conciliador_bancario/ingestion/xlsx_adapter.py:211-238 | an expected row's record keeps its external id or gets an `EXP-` id, and is valid exactly when its currency is valid |
| XlsxAdapter.ExpRow | src/conciliador_bancario/ingestion/xlsx_adapter.py:205-238 | a parse failure is reported with the row number, and an accepted row is valid |
| XlsxAdapter.ExpRowsFacts | src/conciliador_bancario/ingestion/xlsx_adapter.py:199-240 | a successful load holds one valid movement per kept row |
| XlsxAdapter.CargaEsperados | src/conciliador_bancario/ingestion/xlsx_adapter.py:170-197 | no qualifying sheet raises before any event, and a failing audit write raises its own error |
| XlsxAdapter.CargarMovimientosEsperadosXlsx | src/conciliador_bancario/ingestion/xlsx_adapter.py:170-240 | the expected loader logs one `XLSX esperados cargado` event naming the sheet before reading the rows |
| XmlAdapter.FirstChild | src/conciliador_bancario/ingestion/xml_adapter.py:46 | `find(tag)` picks the first direct child with the tag, or none when no child has it |
| XmlAdapter.Txt | src/conciliador_bancario/ingestion/xml_adapter.py:45-47 | a missing child reads as empty text |
| XmlAdapter.WithTag | src/conciliador_bancario/ingestion/xml_adapter.py:84 | the filter keeps only elements with the tag, drawn from the list |
| XmlAdapter.WithTagComplete | src/conciliador_bancario/ingestion/xml_adapter.py:84 | every element with the tag is kept |
| XmlAdapter.FindAllFlat | src/conciliador_bancario/ingestion/xml_adapter.py:84 | on children with no children of their own, `.//movimiento` finds exactly the matching children |
| XmlAdapter.FindAllFindsChildren | src/conciliador_bancario/ingestion/xml_adapter.py:84 | every direct child with the tag is found |
| XmlAdapter.DescendantsHoldChildren | src/conciliador_bancario/ingestion/xml_adapter.py:84 | the descendants include every child |
| XmlAdapter.XmlCampo | src/conciliador_bancario/ingestion/xml_adapter.py:32-38 | an XML field holds its value with valid confidence metadata |
| XmlAdapter.Banco | src/conciliador_bancario/ingestion/xml_adapter.py:80-130 | the bank name is absent rather than empty |
| XmlAdapter.CuentaMask | src/conciliador_bancario/ingestion/xml_adapter.py:81-82 | the account from the root is masked, exposing at most four characters |
| XmlAdapter.FechaOf | src/conciliador_bancario/ingestion/xml_adapter.py:105 | the operation date parses exactly when its text is a valid Chilean date |
| XmlAdapter.MontoOf | src/conciliador_bancario/ingestion/xml_adapter.py:108 | the amount parses exactly when its text is a valid CLP amount |
| XmlAdapter.ParseMov | src/conciliador_bancario/ingestion/xml_adapter.py:104-110 | the accounting date is absent exactly when its child's text is empty |
| XmlAdapter.MonedaOf | src/conciliador_bancario/ingestion/xml_adapter.py:112 | the currency is the child's text upper-cased, or the default upper-cased when the text is empty |
| XmlAdapter.RefOf | src/conciliador_bancario/ingestion/xml_adapter.py:114-115 | a reference holds no lower-case letter and is empty when its child is |
| XmlAdapter.IdTx | src/conciliador_bancario/ingestion/xml_adapter.py:41-42 | an id is `TX-` and twelve hex characters |
| XmlAdapter.AssembleTx | src/conciliador_bancario/ingestion/xml_adapter.py:126-143 | the record holds the given id, bank, account and currency, comes from the XML loader with no block, carries its index, and every field has XML confidence |
| XmlAdapter.MovTx | src/conciliador_bancario/ingestion/xml_adapter.py:112-143 | a movement's record has a `TX-` id, the root's bank and masked account, its index and the file name; it is valid exactly when its currency is valid and the file has a name |
| XmlAdapter.MovValidate | src/conciliador_bancario/ingestion/xml_adapter.py:126-143 | building the record fails with a validation error exactly when the model would reject it |
| XmlAdapter.MovStep | src/conciliador_bancario/ingestion/xml_adapter.py:103-143 | a parse failure is reported as `Movimiento XML n: parseo invalido`, and a parsed movement is accepted exactly when its currency is valid and the file has a name |
| XmlAdapter.MovStepIsXml | src/conciliador_bancario/ingestion/xml_adapter.py:103-143 | an accepted movement's record is the XML record of that movement |
| XmlAdapter.OutcomesAt | src/conciliador_bancario/ingestion/xml_adapter.py:103 | the loop makes one outcome per movement, numbered from 1 |
| XmlAdapter.LoadAll | src/conciliador_bancario/ingestion/xml_adapter.py:102-144 | the movement loop returns the records of every movement, or the first failure |
| XmlAdapter.OutcomesOk | src/conciliador_bancario/ingestion/xml_adapter.py:102-144 | a successful loop has one record per movement, each the outcome of its own movement |
| XmlAdapter.OutcomesAll | src/conciliador_bancario/ingestion/xml_adapter.py:102-144 | a property every accepted movement's record has holds of every record of a successful load |
| XmlAdapter.OutcomesErr | src/conciliador_bancario/ingestion/xml_adapter.py:102-144 | a failing loop fails with some movement's error, every earlier movement having succeeded |
| XmlAdapter.MovRecords | src/conciliador_bancario/ingestion/xml_adapter.py:102-144 | a successful load holds one XML record per movement, in document order |
| XmlAdapter.LoadDocument | src/conciliador_bancario/ingestion/xml_adapter.py:79-144 | after parsing, the movement count is checked, then the `XML cartola cargado` event is written, then the movements are read |
| XmlAdapter.LoadParsed | src/conciliador_bancario/ingestion/xml_adapter.py:75-144 | a malformed document raises `XML invalido` with no event; a document defusedxml refuses raises that refusal unchanged, with no event; otherwise the document is loaded |
| XmlAdapter.LoadXml | src/conciliador_bancario/ingestion/xml_adapter.py:67-144 | the size check comes first, then parsing, whose ParseError becomes `XML invalido` and whose defusedxml refusals pass through; the result, the log and the stderr note are those of the whole loader |
| XmlAdapter.CargarTransaccionesXml | src/conciliador_bancario/ingestion/xml_adapter.py:50-144 | `cargar_transacciones_xml` with the hash as a parameter, over every parse outcome: tree, ParseError or defusedxml refusal |
| XmlAdapter.LoadedRecords | src/conciliador_bancario/ingestion/xml_adapter.py:67-144 | a successful load means the size and count were within limits and the audit writes succeeded, and it holds one XML record per movement |
| XmlAdapter.GuardsComeFirst | src/conciliador_bancario/ingestion/xml_adapter.py:67-95 | an oversized file fails whatever its content, and too many movements fail with only limit events logged |
| XmlAdapter.ParseOutcomeClassified | src/conciliador_bancario/ingestion/xml_adapter.py:75-78 | within the size limit, a document that does not parse logs nothing; a ParseError is the ingestion error `XML invalido` (exit 4), while a defusedxml refusal escapes uncaught and is classified internal by the CLI (exit 10) and by `validate` |
| XmlAdapter.FirstFailingMovimiento | src/conciliador_bancario/ingestion/xml_adapter.py:102-110 | a failing load within limits fails with the error of some movement, every earlier one having succeeded |
| PdfOcrAdapter.OcrScore | src/conciliador_bancario/ingestion/pdf_ocr_adapter.py:21-22 | the OCR score lies in [0, 1] and is 0.30 minus the degrade |
| PdfOcrAdapter.OcrCampo | src/conciliador_bancario/ingestion/pdf_ocr_adapter.py:20-26 | an OCR field is always `baja`, from `pdf_ocr`, with the given note |
| PdfOcrAdapter.RightmostIsRightmost | src/conciliador_bancario/ingestion/pdf_ocr_adapter.py:67-73 | the amount is read from the rightmost token that parses as one, and is missing exactly when no token parses |
| PdfOcrAdapter.ScanLineKeeps | src/conciliador_bancario/ingestion/pdf_ocr_adapter.py:55-75 | a line is kept exactly when it is not empty, has two tokens, starts with a valid date and has some token that is an amount; the date comes from the first token and the amount from the rightmost amount token |
| PdfOcrAdapter.ShortLineSkipped | src/conciliador_bancario/ingestion/pdf_ocr_adapter.py:59-61 | a line of a single token is skipped |
| PdfOcrAdapter.PathText | src/conciliador_bancario/ingestion/pdf_ocr_adapter.py:92 | the source file text is never empty |
| PdfOcrAdapter.OcrId | src/conciliador_bancario/ingestion/pdf_ocr_adapter.py:29-30 | an OCR id is `TX-` and twelve hex characters |
| PdfOcrAdapter.MotivoNotBlank | src/conciliador_bancario/ingestion/pdf_ocr_adapter.py:85 | the blocking reason is not blank, as the model requires of a blocked transaction |
| PdfOcrAdapter.OcrRecord | src/conciliador_bancario/ingestion/pdf_ocr_adapter.py:80-96 | an OCR record is built exactly when the default currency is valid, and otherwise fails validation |
| PdfOcrAdapter.ScanRecords | src/conciliador_bancario/ingestion/pdf_ocr_adapter.py:53-96 | a successful scan holds one record per kept line, the j-th numbered j + 1 |
| PdfOcrAdapter.OcrFnOk | src/conciliador_bancario/ingestion/pdf_ocr_adapter.py:76-96 | an accepted line's record is blocked, `baja`, without account or reference, and carries its index and the line's date and amount |
| PdfOcrAdapter.ScanAll | src/conciliador_bancario/ingestion/pdf_ocr_adapter.py:53-96 | a property every accepted line's record has holds of every record of a successful scan |
| PdfOcrAdapter.ReadMonto | src/conciliador_bancario/ingestion/pdf_ocr_adapter.py:67-73 | the reversed token loop finds the rightmost amount |
| PdfOcrAdapter.ReadLine | src/conciliador_bancario/ingestion/pdf_ocr_adapter.py:56-75 | the line loop body keeps and reads a line as the line function says |
| PdfOcrAdapter.ScanLines | src/conciliador_bancario/ingestion/pdf_ocr_adapter.py:53-96 | the scan loop returns the records of the kept lines, or the first failure |
| PdfOcrAdapter.ScanPages | src/conciliador_bancario/ingestion/pdf_ocr_adapter.py:47-100 | after the start event, the scan writes the finished event with the count, then raises if nothing was found |
| PdfOcrAdapter.LoadOcr | src/conciliador_bancario/ingestion/pdf_ocr_adapter.py:38-100 | an unavailable OCR raises before any event; otherwise the start event, the scan and the finished event follow, for any line scanner and record function |
| PdfOcrAdapter.CargarTransaccionesPdfOcr | src/conciliador_bancario/ingestion/pdf_ocr_adapter.py:33-100 | `cargar_transacciones_pdf_ocr` with its own line scanner and record function |
| PdfOcrAdapter.UnavailableFailsFirst | src/conciliador_bancario/ingestion/pdf_ocr_adapter.py:38-44 | missing OCR libraries raise ErrorIngestion with no event |
| PdfOcrAdapter.NothingFoundAfterEvent | src/conciliador_bancario/ingestion/pdf_ocr_adapter.py:97-99 | when no line is kept, both events are written, the finished one with count 0, and then ErrorIngestion is raised |
| PdfOcrAdapter.NoneAccepted | src/conciliador_bancario/ingestion/pdf_ocr_adapter.py:53-96 | no kept line gives no record |
| PdfOcrAdapter.LoadedRecords | src/conciliador_bancario/ingestion/pdf_ocr_adapter.py:33-100 | a successful load means OCR was available, the writes succeeded and some line was kept, and it holds one OCR record per kept line |
| Pipeline.ApplyLimitOverrides | src/conciliador_bancario/pipeline.py:73-95 | each limit given on the command line replaces its configured value, every other limit and every other setting is kept, and no override leaves the configuration as it was |
| Pipeline.OverridesNotRechecked | src/conciliador_bancario/pipeline.py:94 | `model_copy` does not re-validate: a page limit below 1 is taken as given and leaves limits the model's own validation would refuse |
| Pipeline.EffectiveConfig | src/conciliador_bancario/pipeline.py:135-145 | `--enable-ocr` only switches OCR on, and nothing but OCR and the limits changes |
| Pipeline.ValidateErrorType | src/conciliador_bancario/pipeline.py:98-107 | each error kind has its own `error_type`, an OSError counting as `io`, and anything else is `internal` |
| Pipeline.CheckFormats | src/conciliador_bancario/pipeline.py:152-159 | the format loop collects one message per flag whose suffix is not supported, in flag order |
| Pipeline.FormatErrorsConcat | src/conciliador_bancario/pipeline.py:153-159 | the messages of two lists of flags are those of each, in order |
| Pipeline.FormatErrorsOfFlags | src/conciliador_bancario/pipeline.py:148-160 | there is no format error exactly when both suffixes are supported |
| Pipeline.ValidateFormatFirst | src/conciliador_bancario/pipeline.py:160-166 | an unsupported format is reported with `error_type` `ingestion` and one or two messages, before and whatever the loaders would do |
| Pipeline.ValidateOkIff | src/conciliador_bancario/pipeline.py:134-189 | validate succeeds exactly when both formats are supported and both loaders return something, and then it reports both counts; a failure names an error type and at least one message |
| Pipeline.ValidateEmptyBatch | src/conciliador_bancario/pipeline.py:173-176 | no bank transactions, or no expected movements, fails with the matching message under `ingestion` |
| Errors.Str | src/conciliador_bancario/errors.py:7-18 | `str(exc)` of an exception raised with a message is that message; a validator failure reads `Value error, ` followed by the validator's message; for a pydantic error the text is shortened (see Left out) |
| Errors.StrNamesEveryField | src/conciliador_bancario/pipeline.py:177-183 | the text put in `errores` for a pydantic field error names every field that failed |
| Pipeline.ValidateLoaderError | src/conciliador_bancario/pipeline.py:177-183 | a loader error is reported as its own text with its error type |
| Pipeline.Fingerprint | src/conciliador_bancario/pipeline.py:244-252 | the run fingerprint passes the run.json fingerprint check and records the OCR and mask settings |
| Pipeline.RunId | src/conciliador_bancario/pipeline.py:253 | the run id is the first 16 characters of the stable hash of the fingerprint |
| Pipeline.RunIdOfFingerprintOnly | src/conciliador_bancario/pipeline.py:244-253 | the run id does not depend on anything but the hashes, the mask and the OCR setting: the limits do not change it |
| Pipeline.FingerprintRoundTrip | src/conciliador_bancario/pipeline.py:244-252 | a fingerprint the pipeline builds reads back from its JSON as itself |
| CliErrors.ErrorDetails | src/conciliador_bancario/cli/errors.py:40-43 | only a conciliador error carries details; any other has none |
| CliErrors.ErrorHint | src/conciliador_bancario/cli/errors.py:46-49 | only a conciliador error carries a hint |
| CliErrors.ClassifyCliError | src/conciliador_bancario/cli/errors.py:52-85 | each error kind gets its own exit code, an OSError counting as io with its own message and hint, and anything else is internal with its message prefixed; details are always the error's own |
| CliErrors.CategoriesMatchExitCodes | src/conciliador_bancario/cli/errors.py:22-85 | two errors share a category exactly when they share an exit code, and no error exits with 0 |
| CliErrors.IngestionHasNoDetails | src/conciliador_bancario/cli/errors.py:61-64 | an ingestion error is rendered with exit code 4, its message, and no details or hint |
| CliErrors.ValidateTypeAgreesWithExitCode | src/conciliador_bancario/cli/errors.py:52-85 | the `error_type` validate reports agrees with the CLI exit code for every error, a user-input error counting as internal there |
| CliErrors.DetailLines | src/conciliador_bancario/cli/errors.py:93-94 | one `- key: value` line per key, in the order given |
| CliErrors.PrintDetails | src/conciliador_bancario/cli/errors.py:93-94 | the detail loop prints the lines of the keys in order |
| CliErrors.PrintRendered | src/conciliador_bancario/cli/errors.py:89-100 | the console lines are the header, the details, the hint and the debug block |
| CliErrors.RenderAndExit | src/conciliador_bancario/cli/errors.py:88-101 | `render_and_exit` prints the rendering of the classified error and exits with its code |
| CliErrors.RenderWithoutDetails | src/conciliador_bancario/cli/errors.py:91-100 | no details means no `Detalles:` block |
| CliErrors.RenderDetailsSorted | src/conciliador_bancario/cli/errors.py:90-94 | the header comes first, then `Detalles:`, then one line per key in ascending order, every key appearing |
| CliErrors.TracebackOnlyWithDebug | src/conciliador_bancario/cli/errors.py:97-100 | the traceback is printed only with `--debug`, after everything else, and without it the traceback does not matter |
| CliErrors.FailureEvent | src/conciliador_bancario/cli/errors.py:113-123 | the `cli_error` event records the command, the category, the exit code and the message |
| CliErrors.EmitFailureAuditBestEffort | src/conciliador_bancario/cli/errors.py:104-126 | a failing directory or write leaves the log unchanged and writes one note to stderr; otherwise exactly the `cli_error` event is appended |
| Common.FirstWhere | tools/bump_changelog.py:18 | the search finds the first line satisfying the test from the start position, or reports that none does |
| BumpChangelog.BodyEnd | tools/bump_changelog.py:26-36 | the Unreleased body ends at or after its start and within the file |
| BumpChangelog.SplitLinesLoop | tools/bump_changelog.py:26-41 | the header loop stops at the first `## [` line after the Unreleased header, agreeing with the split function |
| BumpChangelog.NextReleaseLine | tools/bump_changelog.py:26-30 | the loop finds the first `## [` line from the body start on, or none, and so where the body ends |
| BumpChangelog.SplitSectionsOf | tools/bump_changelog.py:11-41 | `_split_sections`, with its loop, computes the split function |
| BumpChangelog.MissingHeaderIff | tools/bump_changelog.py:17-20 | the split fails exactly when no line stripped is `## [Unreleased]`, and then with the missing-header message |
| BumpChangelog.SplitReassembles | tools/bump_changelog.py:11-41 | prefix, body and rest put back together are the changelog |
| BumpChangelog.LinesReassemble | tools/bump_changelog.py:33-41 | the three parts put back together are the lines joined |
| BumpChangelog.SplitShape | tools/bump_changelog.py:11-41 | the prefix ends with the Unreleased header line, and the rest is empty or starts with `## [` |
| BumpChangelog.LinesShape | tools/bump_changelog.py:18-41 | the header is the first Unreleased line, no `## [` line lies inside the body, and the rest starts at the next one |
| BumpChangelog.BumpRefusesExisting | tools/bump_changelog.py:47-48 | a version whose header is already in the text is refused |
| BumpChangelog.BumpRefusesBlank | tools/bump_changelog.py:50-57 | an Unreleased section that is blank is refused |
| BumpChangelog.BumpOutput | tools/bump_changelog.py:59-70 | the new text is the stripped prefix, a blank line, the release header, the stripped notes, a blank line and the rest, ending in a newline |
| BumpChangelog.BumpTwiceRefused | tools/bump_changelog.py:44-72 | the bumped text holds the new version's header, so bumping the same version again is refused |
| BumpChangelog.AssembledHasMarker | tools/bump_changelog.py:62-66 | the assembled text holds the version's header |
| BumpChangelog.Script | tools/bump_changelog.py:75-97 | a version that is not three dotted digit runs is refused first, then a date not shaped `YYYY-MM-DD`, and otherwise the changelog is bumped |
| BumpChangelog.MainAcceptsEveryTriple | tools/bump_changelog.py:90-91 | every SemVer triple passes the version check, and so does `01.0.0`, which is not SemVer |
| PipAuditGate.SkipSpaces | tools/pip_audit_gate.py:12 | `\s*` runs over whitespace to the first character that is not whitespace |
| PipAuditGate.MatchAt | tools/pip_audit_gate.py:12 | a match at a position starts with the `expires` keyword at a word boundary and captures text shaped `YYYY-MM-DD` |
| PipAuditGate.MatchesKeyValue | tools/pip_audit_gate.py:12 | `expires`, optional spaces, `:` or `=`, optional spaces and a date followed by a word boundary match, capturing the date |
| PipAuditGate.DateAtBoundary | tools/pip_audit_gate.py:12 | a date followed by a word boundary is captured |
| PipAuditGate.ValueAfterSeparator | tools/pip_audit_gate.py:12 | after the keyword, the spaces and separator are skipped before the date |
| PipAuditGate.SearchFrom | tools/pip_audit_gate.py:44 | `search` finds the first position where the pattern matches, or none |
| PipAuditGate.ExpiresText | tools/pip_audit_gate.py:44-46 | a captured expiry text is shaped `YYYY-MM-DD` |
| PipAuditGate.ExpiresFound | tools/pip_audit_gate.py:44-46 | a match anywhere means the search succeeds |
| PipAuditGate.HashIndex | tools/pip_audit_gate.py:33 | the split on `#` happens at the first `#` |
| PipAuditGate.EntryForShape | tools/pip_audit_gate.py:36-51 | an entry keeps the id, its reason is the comment when there is one, and its expiry comes from the main part before the comment, missing only when neither has one |
| PipAuditGate.MainWord | tools/pip_audit_gate.py:36-39 | the id is the line's first word, with no `#`, followed by whitespace, `#` or the end of the line |
| PipAuditGate.SkipIff | tools/pip_audit_gate.py:28-30 | a line is skipped exactly when it is blank or a comment |
| PipAuditGate.EntryShape | tools/pip_audit_gate.py:28-51 | every line that is not skipped gives an entry whose id starts the line and whose reason and expiry are as described, or an invalid date |
| PipAuditGate.Outcomes | tools/pip_audit_gate.py:27 | one outcome per line, in order |
| PipAuditGate.CollectOkIff | tools/pip_audit_gate.py:27-51 | the file parses exactly when no line holds an invalid date, and then with one entry per kept line in order |
| PipAuditGate.ParseEntriesOkIff | tools/pip_audit_gate.py:27-51 | parsing the lines succeeds exactly when no line's date is invalid, and keeps every entry in order |
| PipAuditGate.CollectStop | tools/pip_audit_gate.py:48 | after the first invalid date nothing else is read |
| PipAuditGate.ParseIgnoreLines | tools/pip_audit_gate.py:26-51 | the line loop computes the parse function |
| PipAuditGate.ExpiredEntries | tools/pip_audit_gate.py:55 | the expired list holds exactly the entries that have expired, drawn from the entries |
| PipAuditGate.ExpiredLines | tools/pip_audit_gate.py:57-59 | the message is the header line, then one line per expired entry |
| PipAuditGate.GateIff | tools/pip_audit_gate.py:53-62 | the gate passes exactly when no entry has expired, returning the entries, and otherwise exits with the expired message |
| PipAuditGate.NotExpiredFromToday | tools/pip_audit_gate.py:55 | an entry whose expiry is today or later has not expired |
| PipAuditGate.ParseIgnoreFile | tools/pip_audit_gate.py:23-24 | a missing ignore file gives no entries |
| PipAuditGate.CommandShape | tools/pip_audit_gate.py:65-68 | the command is `pip-audit` followed by `--ignore-vuln` and the id of every entry, in order |
| PipAuditGate.BuildCommand | tools/pip_audit_gate.py:66-68 | the command loop builds exactly that command |
| PipAuditGate.Script | tools/pip_audit_gate.py:74-85 | pip-audit runs exactly when the ignore file is accepted, with its entries ignored, and the gate returns its status; with no file it runs bare |
| PipAuditGate.MainRunsIff | tools/pip_audit_gate.py:22-85 | pip-audit runs exactly when every date parses and no entry has expired |
| SecretScan.MarkersAreAscii | tools/secret_scan.py:27-31 | there are two content markers, both ASCII |
| SecretScan.IsDeletedStatus | tools/secret_scan.py:53-65 | git reports the file deleted exactly when the porcelain status starts with ` D ` or `D `; a failing `git status` counts as not deleted |
| SecretScan.FirstMarker | tools/secret_scan.py:103-110 | the marker loop stops at the first marker found in the data |
| SecretScan.FindingFor | tools/secret_scan.py:70-110 | a finding records the file's path relative to the root |
| SecretScan.MarkerFinding | tools/secret_scan.py:103-110 | data with no marker gives no finding, and otherwise the finding names the first marker present |
| SecretScan.Scan | tools/secret_scan.py:68-112 | at most one finding per tracked file |
| SecretScan.ScanPaths | tools/secret_scan.py:68-112 | the file loop computes the scan function |
| SecretScan.MissingFile | tools/secret_scan.py:72-81 | a missing file is a finding exactly when git does not report it deleted |
| SecretScan.SensitiveNameSkipsContent | tools/secret_scan.py:85-92 | a forbidden name or suffix is a finding whatever the file holds, the suffix named in the reason |
| SecretScan.SensitiveSuffixAnyCase | tools/secret_scan.py:82-83 | the name and suffix are compared in lower case |
| SecretScan.LargeFileNotScanned | tools/secret_scan.py:96-97 | a file over 2,000,000 bytes is not read and gives no finding |
| SecretScan.FirstMarkerWins | tools/secret_scan.py:103-110 | the first marker wins, the second is reported only without the first, and neither means no finding |
| SecretScan.ScanAppend | tools/secret_scan.py:69-112 | one more path adds its own finding, if any, at the end |
| SecretScan.FindingsAreListed | tools/secret_scan.py:68-112 | every finding is for a tracked path |
| SecretScan.ScanEmptyIff | tools/secret_scan.py:68-112 | the scan is empty exactly when no tracked file gives a finding |
| SecretScan.Script | tools/secret_scan.py:115-130 | the script raises exactly when the listing fails, with the listing's own error; otherwise it exits 0 with no output when there is no finding, and 2 with the failure header otherwise |
| SecretScan.MainPassesIff | tools/secret_scan.py:115-130 | on git's listing, the scan exits 0 exactly when no tracked file gives a finding, and otherwise prints one line per finding after the header |
| GitTree.TrackedPaths | tools/secret_scan.py:34-50 | no `.git` and no git binary raise their messages, a failing `git ls-files` raises `CalledProcessError` with its return code; otherwise every listed path is non-empty and free of NUL |
| GitTree.NonEmpty | tools/secret_scan.py:46-48 | empty chunks are dropped, the others kept in order |
| GitTree.ListingRoundTrip | tools/secret_scan.py:40-50 | the paths read back from `git ls-files -z` are exactly those git printed, in order |
| GitTree.RelPath | tools/secret_scan.py:71 | a relative path holds no backslash |
| CheckBoundaries.ForbiddenNeedles | tools/check_boundaries.py:17-23 | there are three needles, none empty, all ASCII |
| CheckBoundaries.PathHits | tools/check_boundaries.py:54-56 | one `path` finding for exactly the needles the relative path contains, in needle order |
| CheckBoundaries.ContentHits | tools/check_boundaries.py:65-67 | one `content` finding for exactly the needles whose bytes the file holds, in needle order |
| CheckBoundaries.PathLoop | tools/check_boundaries.py:54-56 | the path loop computes the path findings |
| CheckBoundaries.ContentLoop | tools/check_boundaries.py:65-67 | the content loop computes the content findings |
| CheckBoundaries.ScanFileWith | tools/check_boundaries.py:52-67 | one file's findings are its path findings, then its content findings or the unreadable finding |
| CheckBoundaries.ScanFile | tools/check_boundaries.py:47-67 | one file's findings with the repository's needles |
| CheckBoundaries.ScanPaths | tools/check_boundaries.py:46-69 | the file loop computes the scan function |
| CheckBoundaries.PerFile | tools/check_boundaries.py:51 | one list of findings per tracked file, in order |
| CheckBoundaries.FileFindingsShape | tools/check_boundaries.py:52-67 | path findings come first, then content findings, all for the file's relative path; an unreadable file adds exactly the unreadable finding |
| CheckBoundaries.NeedleFound | tools/check_boundaries.py:54-67 | every needle in the path, and every needle in a readable file's bytes, is reported |
| CheckBoundaries.PathHitsEmptyIff | tools/check_boundaries.py:54-56 | no path finding exactly when the path holds no needle |
| CheckBoundaries.ContentHitsEmptyIff | tools/check_boundaries.py:65-67 | no content finding exactly when the bytes hold no needle |
| CheckBoundaries.CleanFileIff | tools/check_boundaries.py:52-67 | an unreadable file always fails, and a readable one is clean exactly when neither its path nor its bytes hold a needle |
| CheckBoundaries.ScanAppend | tools/check_boundaries.py:51-67 | one more file adds its own findings at the end |
| CheckBoundaries.ScanEmptyIff | tools/check_boundaries.py:46-69 | the scan is empty exactly when every file is clean |
| CheckBoundaries.Script | tools/check_boundaries.py:72-87 | the check raises exactly when the listing fails, with the listing's own error; otherwise it exits 0 with no output when there is no finding, and 2 with the failure header otherwise |
| CheckBoundaries.MainPassesIff | tools/check_boundaries.py:72-87 | on git's listing, the check exits 0 exactly when every tracked file is clean |
| VerifyReleaseTag.SelectTag | tools/verify_release_tag.py:32-36 | the tag is the first argument when it is not empty, else `GITHUB_REF_NAME` when set and not empty, else `TAG_NAME`; a chosen tag is never empty |
| VerifyReleaseTag.TagVersion | tools/verify_release_tag.py:9 | a matching tag is `v` and a dotted triple, with at most a trailing newline that `$` lets through |
| VerifyReleaseTag.TagVersionIff | tools/verify_release_tag.py:9 | `v` followed by some text matches exactly when that text, less one trailing newline, is a dotted triple, and the version is that triple |
| VerifyReleaseTag.TagOfDottedTriple | tools/verify_release_tag.py:9 | `v` and a dotted triple matches, with or without a trailing newline, giving the triple |
| VerifyReleaseTag.TagOfFormat | tools/verify_release_tag.py:9 | the tag of any formatted version gives that version back |
| VerifyReleaseTag.ChangedFiles | tools/verify_release_tag.py:25-28 | the changed files are stripped and none is empty |
| VerifyReleaseTag.ChangedFileListed | tools/verify_release_tag.py:28 | every line of `git show` that is not blank is a changed file |
| VerifyReleaseTag.Script | tools/verify_release_tag.py:31-86 | when the script returns, it exits 0, 1 or 2, and 0 only with nothing written to stderr |
| VerifyReleaseTag.ReleaseChecks | tools/verify_release_tag.py:49-86 | once the tag is valid, the checks return 0 or 1, with 0 writing nothing |
| VerifyReleaseTag.MissingChangelogRaises | tools/verify_release_tag.py:61 | with a valid tag matching the version, a missing CHANGELOG.md raises `FileNotFoundError` |
| VerifyReleaseTag.UsageErrorIff | tools/verify_release_tag.py:32-47 | the script exits 2 exactly when there is no tag or it does not match `vX.Y.Z` |
| VerifyReleaseTag.PassesIff | tools/verify_release_tag.py:31-86 | the script exits 0 exactly when the tag's version is the package version, CHANGELOG.md exists and has its entry, and the tag commit changes both `version.py` and `CHANGELOG.md` |
| VerifyReleaseTag.ChecksPassIff | tools/verify_release_tag.py:49-86 | the checks pass exactly when the versions agree, CHANGELOG.md exists and holds the entry, and both release files changed |
| VerifyReleaseTag.MismatchFirst | tools/verify_release_tag.py:51-59 | a version mismatch exits 1 with its message whatever the changelog and the commit hold |
| VerifyReleaseTag.MissingEntryNext | tools/verify_release_tag.py:61-67 | with matching versions, a missing changelog entry exits 1 with its message whatever the commit holds |
| VerifyReleaseTag.BumpedChangelogHasEntry | tools/verify_release_tag.py:62 | a changelog the bump tool produced has the entry this check looks for |
| VerifyReleaseTag.PackageTagAccepted | tools/verify_release_tag.py:44-49 | the tag of the package's own version is accepted and gives that version |
| Parsing.ParseFechaChile | src/conciliador_bancario/utils/parsing.py:48-67 | the format loop tries the formats in order and returns on the first success, as the date function says |
| Parsing.NormalizarTextoNotIdempotent | src/conciliador_bancario/utils/parsing.py:70-71 | stripping comes before the substitution, so a leading backslash-`s` run leaves a leading space that a second pass removes: `normalizar_texto` is not idempotent |
| Calendar.FromIsoFormat | tools/pip_audit_gate.py:48 | `date.fromisoformat` on `YYYY-MM-DD` text gives a real calendar date or fails |
| PremiumRunJson.SchemaVersionMajor | src/conciliador_bancario/core/premium_contracts/run_json.py:24-35 | the major of the producer's schema version is the supported one |
| PdfOcrAdapter.OcrDescription | src/conciliador_bancario/ingestion/pdf_ocr_adapter.py:76 | the description is the rest of the normalised line after the date token, normalised again |

## Left out

- The matching engine and the CSV and PDF-text adapters raise `NotImplementedError` in the source; `Detector` takes the outcome of each loader as an input.
- The Typer/rich CLI application, console markup and the XLSX report writer are not part of this model; `CliErrors` renders each detail value through a `show` parameter and takes the traceback text as an input.
- `ejecutar_run` beyond the run fingerprint and run id is a sequence of file writes, and it imports `normalizar_lote`, which is not defined, and calls `JsonlAuditWriter` with a `run_id` argument its constructor does not take; it is not modelled.
- SHA-256 and file hashing are a digest-function parameter returning 64 characters; nothing depends on its values.
- openpyxl, defusedxml, pdf2image and tesseract are not modelled: the adapters receive the cell values, the parser's outcome (the tree, the ParseError's text, or a defusedxml refusal with its text), the file size and the OCR page text as inputs.
- XlsxAdapter.CargarTransaccionesXlsx: a failing `load_workbook` (src/conciliador_bancario/ingestion/xlsx_adapter.py, line 94; a corrupt or unreadable workbook) raises uncaught before any event, an internal error or, for an OSError, an io error; the model receives the opened workbook and has no outcome for this.
- XlsxAdapter.CargarMovimientosEsperadosXlsx: the same holds for the expected loader's `load_workbook` (src/conciliador_bancario/ingestion/xlsx_adapter.py, line 173): its failure raises uncaught before any event, and the model has no outcome for it.
- Errors.Str: pydantic's `str(ValidationError)` is a multi-line text (the error count and model name, then per failing field its name, pydantic's message, the error type, the input value and its type, and a documentation link); the model keeps only the failing field names joined by ", ", or "Value error, " and the validator's message. So the text `ejecutar_validate` puts in `errores` (src/conciliador_bancario/pipeline.py, line 180) and the text after "Error interno no esperado: " (src/conciliador_bancario/cli/errors.py, lines 79 to 85) are shortened for such an error, for instance `["moneda"]` for an XLSX row whose currency cell is "PESOS".
- PdfOcrAdapter.LoadOcr: a failure of `convert_from_path` or `image_to_string` (src/conciliador_bancario/ingestion/pdf_ocr_adapter.py, lines 46 to 50) raises uncaught after "OCR iniciado" is written and before "OCR finalizado"; the model receives the page texts and always reaches the scan, so it has no outcome for this.
- The audit sink fails on every write or on none: a sink whose first write succeeds and a later one fails (for instance between the two OCR events) is not represented.
- git subprocesses, the file system, environment variables and `date.today()` are inputs; a failing `git show` or `git ls-files` and a missing CHANGELOG.md are input outcomes, and the uncaught exception each raises is a result (`GitFailed`, `LsFilesFailed`/`Raised`, `NoChangelog`), not a traceback.
- UTF-8 decoding of git output and of scanned files is not modelled: paths arrive as text and markers are compared as ASCII bytes.
- `configurar_logging` and `logging` are left out: they only configure output.
- `enmascarar_texto_sensible` is not modelled: its patterns match literal backslash sequences and would need a general regex engine.
- The premium protocols and the `__init__` re-exports declare names only.
- Python's Unicode-aware `\d`, `\w` and `\b`, `int()` on non-ASCII digits, and `str.upper`/`str.lower` are modelled on ASCII only; `strip` uses Python's full whitespace set.
- PipAuditGate.KeywordAt: folds case in ASCII only; under `re.IGNORECASE` the regex engine also matches `ı` and `İ` as `i`, `ſ` as `s` and `K` (Kelvin sign) as `k`, so such spellings of the keywords are not recognised by the model.
- pathlib is modelled as `/`-separated names with `name` and `suffix` only: trailing separators are dropped before taking the name, but `.` and `..` components, drive letters and backslashes are not interpreted.
- Models.MakeConfig: pydantic's lax-mode coercions in `models.py` (numeric text to numbers, text to dates, integers to floats) are not modelled, and neither are those of the other `Models.Make*` constructors; values are checked as given.
- RunSchema.ReqNumber: the strict float conversion of an integer score is written `i.0`; for integers beyond 2^53 Python rounds to the nearest double, and from 10^16 on `repr` uses exponent notation, which the model does not reproduce.
- PyStr.Repr: escapes every Latin-1 character Python treats as non-printable, the Unicode line and paragraph separators, the space separators other than the space, the General Punctuation format characters, U+FEFF, U+FFF0 to U+FFFB, the private-use areas and the noncharacters; other format characters and unassigned code points outside those ranges are written as they are (a Dafny `char` is never a surrogate, so lone surrogates do not arise). The same holds for every message that embeds a `repr`, among them XlsxAdapter.BankRow, XlsxAdapter.ExpRow, XmlAdapter.MontoOf and XmlAdapter.MovStep.
- XlsxAdapter.BankRow: the `repr` of a bad cell value in its message follows PyStr.Repr, with the coverage stated there.
- XlsxAdapter.ExpRow: the `repr` of a bad cell value in its message follows PyStr.Repr, with the coverage stated there.
- XmlAdapter.MontoOf: the `repr` of a bad amount in its message follows PyStr.Repr, with the coverage stated there.
- XmlAdapter.MovStep: the `repr` of a bad field in its message follows PyStr.Repr, with the coverage stated there.
- The `frozen` and `extra="forbid"` settings of the models hold by construction of the datatypes.
- Floats: confidence scores are reals. Binary floating point is not modelled, and a float in `run.json` is carried as its `repr` text.
- XlsxAdapter.XlsxLevels: states the real-number scores 0.90, 0.80 and 0.70; in binary floating point `0.90 - 0.20` is `0.7000000000000001`, which gives the same level.
- XlsxAdapter.AssembleMov: states the third-party score as the real 0.70, for the same floating-point reason.
- XlsxAdapter.ExpRecord: states the third-party score as the real 0.70, for the same floating-point reason.
- Decimal context overflow in `quantize` (an uncaught InvalidOperation on huge amounts) is not modelled, and the Decimal `-0` is the integer 0.
- Pipeline.ValidateOkIff: as written, `ejecutar_validate` fails on its imports (`BANK_SUPPORTED_SUFFIXES`, `EXPECTED_SUPPORTED_SUFFIXES` and `normalizar_lote` are not defined); the model states the checks its body performs, with the suffix sets as parameters and the normalisation step skipped.
- Pipeline.RunIdOfFingerprintOnly: `MODELO_INTERNO_VERSION` and the package version are fixed constants of the fingerprint.
- The whitespace-collapse test and the audit `seq`/`run_id` test refer to code that does not exist; they are not modelled.
