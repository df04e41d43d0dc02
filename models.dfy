/** The internal record model: confidence metadata, bank transactions, expected movements,
    matches, findings, ingestion limits and the client configuration. Each record is a
    frozen value; `Make…` is what constructing the pydantic model does: the field
    constraints first, all reported together, then the `after` validator, which reports
    the first check that fails. */
module Models {
  import opened Common
  import opened PyStr
  import opened Calendar

  /** `MODELO_INTERNO_VERSION` */
  const ModeloInternoVersion: string := "2"

  datatype OrigenDato = Xml | Csv | Xlsx | PdfTexto | PdfOcr | Manual
  datatype NivelConfianza = Alta | Media | Baja
  datatype EstadoMatch = Conciliado | Sugerido | Pendiente | Rechazado
  datatype SeveridadHallazgo = Info | Advertencia | Critica
  datatype Entidad = Banco | Esperado | MatchEntidad | Sistema

  /** The value a field carries (`Any` in the source), told apart by the kinds the
      validators check. Amounts are integral in this model (the parsers quantize to 1). */
  datatype Valor = VNone | VDate(date: Date) | VDecimal(amount: int) | VStr(text: string) | VOther

  /** Floats are modelled as reals. */
  datatype MetadataConfianza = MetadataConfianza(score: real, nivel: NivelConfianza, origen: OrigenDato, notas: Option<string>)

  datatype CampoConConfianza = Campo(valor: Valor, confianza: MetadataConfianza)

  datatype TransaccionBancaria = TransaccionBancaria(
    id: string, cuentaMask: Option<string>, banco: Option<string>,
    bloquea: bool, motivo: Option<string>,
    fechaOperacion: CampoConConfianza, fechaContable: Option<CampoConConfianza>,
    monto: CampoConConfianza, moneda: string, descripcion: CampoConConfianza,
    referencia: Option<CampoConConfianza>, archivoOrigen: string, origen: OrigenDato,
    filaOrigen: Option<int>)

  datatype MovimientoEsperado = MovimientoEsperado(
    id: string, fecha: CampoConConfianza, monto: CampoConConfianza, moneda: string,
    descripcion: CampoConConfianza, referencia: Option<CampoConConfianza>,
    tercero: Option<CampoConConfianza>)

  datatype Match = Match(
    id: string, estado: EstadoMatch, score: real, regla: string, explicacion: string,
    transacciones: seq<string>, movimientos: seq<string>, bloqueado: bool)

  /** `detalles` is kept as its key set: no validator looks at the values. */
  datatype Hallazgo = Hallazgo(
    id: string, severidad: SeveridadHallazgo, tipo: string, mensaje: string,
    entidad: Entidad, entidadId: Option<string>, detalles: set<string>)

  datatype LimitesIngesta = LimitesIngesta(
    maxInputBytes: int, maxTabularRows: int, maxTabularCells: int,
    maxPdfPages: int, maxPdfTextChars: int, maxXmlMovimientos: int)

  datatype ConfiguracionCliente = ConfiguracionCliente(
    cliente: string, rutMask: Option<string>, ventanaDias: int,
    umbralAutoconcilia: real, umbralConfianzaCampos: real, permitirOcr: bool,
    maskPorDefecto: bool, monedaDefault: string, limites: LimitesIngesta)

  /** pydantic's ValidationError: either the fields whose constraints fail, in declaration
      order, or the message of the ValueError the `after` validator raised. */
  datatype ValidationError = FieldsInvalid(fields: seq<string>) | ValidatorFailed(message: string)

  // ---------------------------------------------------------------------------
  // Field constraints

  /** `Field(pattern=r"^[A-Z]{3}$")`: exactly three ASCII capitals. */
  predicate IsMoneda(s: string) {
    |s| == 3 && forall i | 0 <= i < 3 :: IsUpperAscii(s[i])
  }

  predicate InUnit(x: real) { 0.0 <= x <= 1.0 }

  /** The field name when its constraint fails, nothing when it holds; a validation
      error lists these in declaration order. */
  function Flag(field: string, ok: bool): (r: seq<string>)
    ensures ok <==> r == []
    ensures !ok ==> r == [field]
  {
    if ok then [] else [field]
  }

  // ---------------------------------------------------------------------------
  // MetadataConfianza

  predicate ValidMetadata(m: MetadataConfianza) { InUnit(m.score) }

  function MakeMetadata(m: MetadataConfianza): (r: Result<MetadataConfianza, ValidationError>)
    ensures r.Ok? <==> 0.0 <= m.score <= 1.0
    ensures r.Ok? ==> r.value == m
    ensures r.Err? ==> r.error == FieldsInvalid(["score"])
  {
    if InUnit(m.score) then Ok(m) else Err(FieldsInvalid(["score"]))
  }

  // ---------------------------------------------------------------------------
  // TransaccionBancaria

  function TxFieldErrors(t: TransaccionBancaria): seq<string> {
    Flag("id", |t.id| >= 1) + Flag("moneda", IsMoneda(t.moneda)) + Flag("archivo_origen", |t.archivoOrigen| >= 1)
  }

  const MotivoRequerido: string := "motivo_bloqueo_autoconcilia requerido si bloquea_autoconcilia=True"

  function OrEmpty(s: Option<string>): string {
    if s.Some? then s.value else ""
  }

  /** A present field whose value is not None has the given kind. */
  predicate OptionalOfKind(c: Option<CampoConConfianza>, isDate: bool) {
    c.None? || c.value.valor.VNone? || (if isDate then c.value.valor.VDate? else c.value.valor.VStr?)
  }

  /** `_validar_bloqueo`: the first failing check, by its message. */
  function ValidarBloqueo(t: TransaccionBancaria): (r: Option<string>)
  {
    if t.bloquea && Strip(OrEmpty(t.motivo)) == [] then Some(MotivoRequerido)
    else if !t.fechaOperacion.valor.VDate? then Some("fecha_operacion.valor debe ser date")
    else if !OptionalOfKind(t.fechaContable, true) then Some("fecha_contable.valor debe ser date")
    else if !t.monto.valor.VDecimal? then Some("monto.valor debe ser Decimal")
    else if !t.descripcion.valor.VStr? then Some("descripcion.valor debe ser str")
    else if !OptionalOfKind(t.referencia, false) then Some("referencia.valor debe ser str")
    else None
  }

  /** What a constructed bank transaction satisfies, stated as one conjunction. */
  predicate ValidTransaccion(t: TransaccionBancaria) {
    t.id != [] && IsMoneda(t.moneda) && t.archivoOrigen != []
    && (t.bloquea ==> t.motivo.Some? && Strip(t.motivo.value) != [])
    && t.fechaOperacion.valor.VDate?
    && (t.fechaContable.Some? && !t.fechaContable.value.valor.VNone? ==> t.fechaContable.value.valor.VDate?)
    && t.monto.valor.VDecimal?
    && t.descripcion.valor.VStr?
    && (t.referencia.Some? && !t.referencia.value.valor.VNone? ==> t.referencia.value.valor.VStr?)
  }

  /** `TransaccionBancaria(...)`. */
  function MakeTransaccion(t: TransaccionBancaria): (r: Result<TransaccionBancaria, ValidationError>)
    ensures r.Ok? <==> ValidTransaccion(t)
    ensures r.Ok? ==> r.value == t
    ensures r.Err? && r.error.FieldsInvalid? ==> r.error.fields != []
    ensures r.Err? && r.error.ValidatorFailed? ==> t.id != [] && IsMoneda(t.moneda) && t.archivoOrigen != []
  {
    var bad := TxFieldErrors(t);
    if bad != [] then Err(FieldsInvalid(bad))
    else match ValidarBloqueo(t)
      case Some(msg) => Err(ValidatorFailed(msg))
      case None => Ok(t)
  }

  /** A blocked record without a reason is refused with that message before any type
      check, whatever the field values are. */
  lemma BlockedNeedsMotivo(t: TransaccionBancaria)
    requires t.id != [] && IsMoneda(t.moneda) && t.archivoOrigen != []
    requires t.bloquea && (t.motivo.None? || forall i | 0 <= i < |t.motivo.value| :: IsSpace(t.motivo.value[i]))
    ensures MakeTransaccion(t) == Err(ValidatorFailed(MotivoRequerido))
  {
    if t.motivo.Some? {
      StripEmptyIff(t.motivo.value);
    }
  }

  /** A currency outside `[A-Z]{3}` is reported as a field error naming `moneda`. */
  lemma BadMonedaRefused(t: TransaccionBancaria)
    requires !IsMoneda(t.moneda)
    ensures MakeTransaccion(t).Err? && MakeTransaccion(t).error.FieldsInvalid?
    ensures "moneda" in MakeTransaccion(t).error.fields
  {
  }

  // ---------------------------------------------------------------------------
  // MovimientoEsperado

  function ExpFieldErrors(m: MovimientoEsperado): seq<string> {
    Flag("id", |m.id| >= 1) + Flag("moneda", IsMoneda(m.moneda))
  }

  /** `_validar_tipos`: the first failing check, by its message. */
  function ValidarTipos(m: MovimientoEsperado): (r: Option<string>)
  {
    if !m.fecha.valor.VDate? then Some("fecha.valor debe ser date")
    else if !m.monto.valor.VDecimal? then Some("monto.valor debe ser Decimal")
    else if !m.descripcion.valor.VStr? then Some("descripcion.valor debe ser str")
    else if !OptionalOfKind(m.referencia, false) then Some("referencia.valor debe ser str")
    else if !OptionalOfKind(m.tercero, false) then Some("tercero.valor debe ser str")
    else None
  }

  predicate ValidMovimiento(m: MovimientoEsperado) {
    m.id != [] && IsMoneda(m.moneda)
    && m.fecha.valor.VDate? && m.monto.valor.VDecimal? && m.descripcion.valor.VStr?
    && (m.referencia.Some? && !m.referencia.value.valor.VNone? ==> m.referencia.value.valor.VStr?)
    && (m.tercero.Some? && !m.tercero.value.valor.VNone? ==> m.tercero.value.valor.VStr?)
  }

  /** `MovimientoEsperado(...)`. */
  function MakeMovimiento(m: MovimientoEsperado): (r: Result<MovimientoEsperado, ValidationError>)
    ensures r.Ok? <==> ValidMovimiento(m)
    ensures r.Ok? ==> r.value == m
    ensures r.Err? && r.error.FieldsInvalid? ==> r.error.fields != []
    ensures r.Err? && r.error.ValidatorFailed? ==> m.id != [] && IsMoneda(m.moneda)
  {
    var bad := ExpFieldErrors(m);
    if bad != [] then Err(FieldsInvalid(bad))
    else match ValidarTipos(m)
      case Some(msg) => Err(ValidatorFailed(msg))
      case None => Ok(m)
  }

  /** The checks run in declaration order: a non-date `fecha` is reported even when every
      other field is wrong too. */
  lemma FechaCheckedFirst(m: MovimientoEsperado)
    requires m.id != [] && IsMoneda(m.moneda) && !m.fecha.valor.VDate?
    ensures MakeMovimiento(m) == Err(ValidatorFailed("fecha.valor debe ser date"))
  {
  }

  // ---------------------------------------------------------------------------
  // Match and Hallazgo

  function MatchFieldErrors(m: Match): seq<string> {
    Flag("id", |m.id| >= 1) + Flag("score", InUnit(m.score)) + Flag("regla", |m.regla| >= 1) + Flag("explicacion", |m.explicacion| >= 1) + Flag("transacciones_bancarias", |m.transacciones| >= 1) + Flag("movimientos_esperados", |m.movimientos| >= 1)
  }

  /** `Match(...)`. */
  function MakeMatch(m: Match): (r: Result<Match, ValidationError>)
    ensures r.Ok? <==> m.id != [] && 0.0 <= m.score <= 1.0 && m.regla != [] && m.explicacion != []
                       && m.transacciones != [] && m.movimientos != []
    ensures r.Ok? ==> r.value == m
    ensures r.Err? ==> r.error.FieldsInvalid? && r.error.fields != []
  {
    var bad := MatchFieldErrors(m);
    if bad == [] then Ok(m) else Err(FieldsInvalid(bad))
  }

  /** A match without bank transactions is refused, naming that field. */
  lemma MatchNeedsTransacciones(m: Match)
    requires m.transacciones == []
    ensures MakeMatch(m).Err? && "transacciones_bancarias" in MakeMatch(m).error.fields
  {
  }

  function HallazgoFieldErrors(h: Hallazgo): seq<string> {
    Flag("id", |h.id| >= 1) + Flag("tipo", |h.tipo| >= 1) + Flag("mensaje", |h.mensaje| >= 1)
  }

  /** `Hallazgo(...)`; `entidad` is one of its four literals by construction. */
  function MakeHallazgo(h: Hallazgo): (r: Result<Hallazgo, ValidationError>)
    ensures r.Ok? <==> h.id != [] && h.tipo != [] && h.mensaje != []
    ensures r.Ok? ==> r.value == h
    ensures r.Err? ==> r.error.FieldsInvalid? && r.error.fields != []
  {
    var bad := HallazgoFieldErrors(h);
    if bad == [] then Ok(h) else Err(FieldsInvalid(bad))
  }

  // ---------------------------------------------------------------------------
  // LimitesIngesta and ConfiguracionCliente

  predicate ValidLimites(l: LimitesIngesta) {
    l.maxInputBytes >= 1 && l.maxTabularRows >= 1 && l.maxTabularCells >= 1
    && l.maxPdfPages >= 1 && l.maxPdfTextChars >= 1 && l.maxXmlMovimientos >= 1
  }

  /** `LimitesIngesta()`: the conservative defaults. */
  function DefaultLimites(): (r: LimitesIngesta)
    ensures ValidLimites(r)
    ensures r.maxInputBytes == 25_000_000 && r.maxTabularRows == 200_000
    ensures r.maxTabularCells == 5_000_000 && r.maxPdfPages == 200
    ensures r.maxPdfTextChars == 5_000_000 && r.maxXmlMovimientos == 200_000
  {
    LimitesIngesta(25_000_000, 200_000, 5_000_000, 200, 5_000_000, 200_000)
  }

  function LimitesFieldErrors(l: LimitesIngesta): seq<string> {
    Flag("max_input_bytes", l.maxInputBytes >= 1) + Flag("max_tabular_rows", l.maxTabularRows >= 1) + Flag("max_tabular_cells", l.maxTabularCells >= 1) + Flag("max_pdf_pages", l.maxPdfPages >= 1) + Flag("max_pdf_text_chars", l.maxPdfTextChars >= 1) + Flag("max_xml_movimientos", l.maxXmlMovimientos >= 1)
  }

  /** `LimitesIngesta(...)`: every limit at least 1. */
  function MakeLimites(l: LimitesIngesta): (r: Result<LimitesIngesta, ValidationError>)
    ensures r.Ok? <==> ValidLimites(l)
    ensures r.Ok? ==> r.value == l
    ensures r.Err? ==> r.error.FieldsInvalid? && r.error.fields != []
  {
    var bad := LimitesFieldErrors(l);
    if bad == [] then Ok(l) else Err(FieldsInvalid(bad))
  }

  /** A zero limit is refused, naming it. */
  lemma ZeroLimitRefused(l: LimitesIngesta)
    requires l.maxPdfPages == 0
    ensures MakeLimites(l).Err?
    ensures "max_pdf_pages" in MakeLimites(l).error.fields
  {
  }

  /** What a validated configuration satisfies. The nested limits are checked when they
      are built; an instance passed in is not checked again. */
  predicate ValidConfig(c: ConfiguracionCliente) {
    c.cliente != [] && c.ventanaDias >= 0 && InUnit(c.umbralAutoconcilia)
    && InUnit(c.umbralConfianzaCampos) && IsMoneda(c.monedaDefault)
  }

  function ConfigFieldErrors(c: ConfiguracionCliente): seq<string> {
    Flag("cliente", |c.cliente| >= 1) + Flag("ventana_dias_monto_fecha", c.ventanaDias >= 0) + Flag("umbral_autoconcilia", InUnit(c.umbralAutoconcilia)) + Flag("umbral_confianza_campos", InUnit(c.umbralConfianzaCampos)) + Flag("moneda_default", IsMoneda(c.monedaDefault))
  }

  /** `ConfiguracionCliente(...)` with its limits given as an instance. */
  function MakeConfig(c: ConfiguracionCliente): (r: Result<ConfiguracionCliente, ValidationError>)
    ensures r.Ok? <==> ValidConfig(c)
    ensures r.Ok? ==> r.value == c
    ensures r.Err? ==> r.error.FieldsInvalid? && r.error.fields != []
  {
    var bad := ConfigFieldErrors(c);
    if bad == [] then Ok(c) else Err(FieldsInvalid(bad))
  }

  /** `ConfiguracionCliente(cliente=...)` with every other field defaulted. */
  function DefaultConfig(cliente: string): (r: ConfiguracionCliente)
    ensures r.cliente == cliente && r.rutMask.None?
    ensures r.ventanaDias == 3 && r.umbralAutoconcilia == 0.85 && r.umbralConfianzaCampos == 0.80
    ensures !r.permitirOcr && r.maskPorDefecto && r.monedaDefault == "CLP"
    ensures r.limites == DefaultLimites()
  {
    ConfiguracionCliente(cliente, None, 3, 0.85, 0.80, false, true, "CLP", DefaultLimites())
  }

  /** The defaults pass every field constraint: only the client name can make them fail. */
  lemma DefaultConfigValid(cliente: string)
    ensures MakeConfig(DefaultConfig(cliente)).Ok? <==> cliente != []
    ensures ValidLimites(DefaultConfig(cliente).limites)
  {
  }
}
