/** The XLSX adapter: picks the first worksheet whose header row names every required
    column, then turns each non-blank data row into a bank transaction or an expected
    movement, with the row's 1-based sheet number as its origin. The workbook arrives as
    the cell values openpyxl reads from it; reading the file is not modelled. */
module XlsxAdapter {
  import opened Common
  import opened PyStr
  import opened Calendar
  import opened Json
  import opened Parsing
  import opened Models
  import opened Errors
  import opened AuditLog
  import opened Hashing
  import Masking

  // ---------------------------------------------------------------------------
  // Cells and rows

  /** A cell value as openpyxl returns it with `data_only=True`. A float keeps the text
      `str()` writes for it; a datetime keeps its date and the clock text `str()` writes
      after the date. */
  datatype Cell =
    | CNone
    | CStr(s: string)
    | CInt(i: int)
    | CFloat(text: string)
    | CBool(b: bool)
    | CDate(d: PyDate)
    | CDateTime(d: PyDate, clock: string)

  datatype Worksheet = Worksheet(title: string, rows: seq<seq<Cell>>)

  /** `str(v)` of a non-None cell value. */
  function CellStr(c: Cell): string {
    match c
    case CNone => "None"
    case CStr(s) => s
    case CInt(i) => IntToString(i)
    case CFloat(t) => t
    case CBool(b) => if b then "True" else "False"
    case CDate(d) => IsoFormat(d)
    case CDateTime(d, clock) => IsoFormat(d) + " " + clock
  }

  /** `_as_text`: the empty text for None, `str(v)` otherwise. */
  function AsText(c: Cell): string {
    if c.CNone? then "" else CellStr(c)
  }

  /** Python truthiness of a cell value: None, `""`, `0`, `0.0` and False are false. */
  predicate Truthy(c: Cell) {
    match c
    case CNone => false
    case CStr(s) => s != []
    case CInt(i) => i != 0
    case CFloat(t) => t != "0.0" && t != "-0.0"
    case CBool(b) => b
    case CDate(_) => true
    case CDateTime(_, _) => true
  }

  /** A cell that makes its row count: not None and not blank once stripped. */
  predicate Filled(c: Cell) {
    !c.CNone? && Strip(CellStr(c)) != []
  }

  /** Some cell of the row is filled (`any(...)` over the row). */
  predicate AnyFilled(row: seq<Cell>)
    decreases |row|
  {
    row != [] && (Filled(row[0]) || AnyFilled(row[1..]))
  }

  /** A row the loaders skip: empty, or with no filled cell. */
  predicate BlankRow(row: seq<Cell>) {
    !AnyFilled(row)
  }

  /** The 1-based sheet numbers of the rows from index `k` on that `skip` keeps (the
      header is row 1). */
  function KeptRowNumbers(skip: seq<Cell> -> bool, rows: seq<seq<Cell>>, k: nat): (ns: seq<nat>)
    requires k <= |rows|
    ensures forall j | 0 <= j < |ns| :: k + 1 <= ns[j] <= |rows|
    decreases |rows| - k
  {
    if k == |rows| then []
    else if skip(rows[k]) then KeptRowNumbers(skip, rows, k + 1)
    else [k + 1] + KeptRowNumbers(skip, rows, k + 1)
  }

  /** Only kept rows are listed, in sheet order. */
  lemma {:induction false} KeptRowNumbersSound(skip: seq<Cell> -> bool, rows: seq<seq<Cell>>, k: nat)
    requires k <= |rows|
    ensures forall j | 0 <= j < |KeptRowNumbers(skip, rows, k)| :: !skip(rows[KeptRowNumbers(skip, rows, k)[j] - 1])
    ensures forall i, j | 0 <= i < j < |KeptRowNumbers(skip, rows, k)| :: KeptRowNumbers(skip, rows, k)[i] < KeptRowNumbers(skip, rows, k)[j]
    decreases |rows| - k
  {
    if k < |rows| {
      KeptRowNumbersSound(skip, rows, k + 1);
    }
  }

  /** Every kept row from `k` on has its number in the list. */
  lemma {:induction false} KeptRowNumbersComplete(skip: seq<Cell> -> bool, rows: seq<seq<Cell>>, k: nat, i: nat)
    requires k <= i < |rows| && !skip(rows[i])
    ensures i + 1 in KeptRowNumbers(skip, rows, k)
    decreases i - k
  {
    if k < i {
      KeptRowNumbersComplete(skip, rows, k + 1, i);
    }
  }

  // ---------------------------------------------------------------------------
  // The row loop both loaders run

  /** The outcome of reading each kept row from index `k` on, in sheet order; `f` reads
      one row given its number. */
  function RowResults<T>(f: (int, seq<Cell>) -> Result<T, Exc>, skip: seq<Cell> -> bool, rows: seq<seq<Cell>>, k: nat): seq<Result<T, Exc>>
    requires k <= |rows|
    decreases |rows| - k
  {
    if k == |rows| then []
    else if skip(rows[k]) then RowResults(f, skip, rows, k + 1)
    else [f(k + 1, rows[k])] + RowResults(f, skip, rows, k + 1)
  }

  /** Outcome `j` is the reading of the `j`-th kept row, under its own sheet number. */
  lemma {:induction false} RowResultsAt<T>(f: (int, seq<Cell>) -> Result<T, Exc>, skip: seq<Cell> -> bool, rows: seq<seq<Cell>>, k: nat)
    requires k <= |rows|
    ensures |RowResults(f, skip, rows, k)| == |KeptRowNumbers(skip, rows, k)|
    ensures forall j | 0 <= j < |RowResults(f, skip, rows, k)| ::
      RowResults(f, skip, rows, k)[j] == f(KeptRowNumbers(skip, rows, k)[j], rows[KeptRowNumbers(skip, rows, k)[j] - 1])
    decreases |rows| - k
  {
    if k < |rows| {
      RowResultsAt(f, skip, rows, k + 1);
      var rs, ns := RowResults(f, skip, rows, k), KeptRowNumbers(skip, rows, k);
      var rest, more := RowResults(f, skip, rows, k + 1), KeptRowNumbers(skip, rows, k + 1);
      if !skip(rows[k]) {
        assert rs == [f(k + 1, rows[k])] + rest && ns == [k + 1] + more;
        forall j | 1 <= j < |rs|
          ensures rs[j] == f(ns[j], rows[ns[j] - 1])
        {
          assert rs[j] == rest[j - 1] && ns[j] == more[j - 1];
        }
      } else {
        assert rs == rest && ns == more;
      }
    }
  }

  /** What the row loop gives from row index `k` on: the record of every row `skip` does
      not skip, or the error of the first such row that fails. */
  function RowsFrom<T>(f: (int, seq<Cell>) -> Result<T, Exc>, skip: seq<Cell> -> bool, rows: seq<seq<Cell>>, k: nat): Result<seq<T>, Exc>
    requires k <= |rows|
  {
    Collect(RowResults(f, skip, rows, k))
  }

  /** The `for excel_row_idx, row in enumerate(rows, start=2)` loop: skip blank rows, read
      the others with `f`, stop at the first error. */
  method LoadRows<T>(f: (int, seq<Cell>) -> Result<T, Exc>, skip: seq<Cell> -> bool, rows: seq<seq<Cell>>) returns (r: Result<seq<T>, Exc>)
    requires |rows| > 0
    ensures r == RowsFrom(f, skip, rows, 1)
  {
    var out: seq<T> := [];
    var k := 1;
    assert RowsFrom(f, skip, rows, 1).Ok? ==> out + RowsFrom(f, skip, rows, 1).value == RowsFrom(f, skip, rows, 1).value;
    while k < |rows|
      invariant 1 <= k <= |rows|
      invariant RowsFrom(f, skip, rows, 1) == Prepend(out, RowsFrom(f, skip, rows, k))
    {
      if !skip(rows[k]) {
        var t := f(k + 1, rows[k]);
        var rs := RowResults(f, skip, rows, k);
        assert rs == [t] + RowResults(f, skip, rows, k + 1);
        assert rs[1..] == RowResults(f, skip, rows, k + 1);
        if t.Err? {
          return Err(t.error);
        }
        var rest := RowsFrom(f, skip, rows, k + 1);
        assert rest.Ok? ==> out + ([t.value] + rest.value) == (out + [t.value]) + rest.value;
        out := out + [t.value];
      }
      k := k + 1;
    }
    assert out + [] == out;
    return Ok(out);
  }

  // ---------------------------------------------------------------------------
  // Field confidence

  /** `_campo`'s metadata: 0.90 less the degradation, clamped to [0, 1]; alta from 0.85,
      media from 0.55, baja below. */
  function XlsxConfianza(degrade: real): (m: MetadataConfianza)
    ensures InUnit(m.score) && m.origen == Xlsx && m.notas.None?
    ensures m.nivel == Alta <==> m.score >= 0.85
    ensures m.nivel == Baja <==> m.score < 0.55
    ensures 0.0 <= degrade <= 0.90 ==> m.score == 0.90 - degrade
  {
    var s0 := 0.90 - degrade;
    var score := if s0 > 1.0 then 1.0 else if s0 < 0.0 then 0.0 else s0;
    var nivel := if score >= 0.85 then Alta else if score >= 0.55 then Media else Baja;
    MetadataConfianza(score, nivel, Xlsx, None)
  }

  function XlsxCampo(v: Valor, degrade: real): CampoConConfianza {
    Campo(v, XlsxConfianza(degrade))
  }

  /** The three degradations the adapter uses: none is alta, the accounting date's 0.10
      and the counterparty's 0.20 are media. */
  lemma XlsxLevels()
    ensures XlsxConfianza(0.0).nivel == Alta && XlsxConfianza(0.0).score == 0.90
    ensures XlsxConfianza(0.10).nivel == Media && XlsxConfianza(0.10).score == 0.80
    ensures XlsxConfianza(0.20).nivel == Media && XlsxConfianza(0.20).score == 0.70
  {
  }

  // ---------------------------------------------------------------------------
  // Dates

  /** `_as_date`: a date cell is its date, a datetime cell its date part, anything else is
      parsed from its text. */
  function AsDate(c: Cell): (r: Result<Date, ParseError>)
    ensures r.Ok? ==> ValidDate(r.value)
    ensures c.CDate? || c.CDateTime? ==> r == Ok(c.d)
    ensures c.CNone? ==> r == Err(FechaVacia)
  {
    match c
    case CDate(d) => Ok(d)
    case CDateTime(d, _) => Ok(d)
    case _ => ParseFecha(AsText(c))
  }

  // ---------------------------------------------------------------------------
  // Header map

  /** `_keynorm`: normalised, lower-cased, spaces turned into underscores. */
  function KeyNorm(s: string): (r: string)
    ensures ' ' !in r
  {
    ReplaceCharRemoves(Lower(NormalizarTexto(s)), ' ', "_");
    ReplaceChar(Lower(NormalizarTexto(s)), ' ', "_")
  }

  /** The key a header cell contributes: none for None, its normalised text otherwise. */
  function HeaderKey(c: Cell): Option<string> {
    if c.CNone? then None else Some(KeyNorm(CellStr(c)))
  }

  /** Each key mapped to the last position that holds it. */
  function KeyMap(keys: seq<Option<string>>): map<string, nat>
    decreases |keys|
  {
    if keys == [] then map[]
    else
      var m := KeyMap(keys[..|keys| - 1]);
      var k := keys[|keys| - 1];
      if k.None? then m else m[k.value := |keys| - 1]
  }

  /** `_build_header_map`: each non-None header cell's normalised text mapped to its
      column; a later column with the same key wins. */
  function HeaderMap(header: seq<Cell>): map<string, nat> {
    KeyMap(seq(|header|, i requires 0 <= i < |header| => HeaderKey(header[i])))
  }

  /** A key of the map sits at its position. */
  lemma {:induction false} KeyMapSound(keys: seq<Option<string>>, k: string)
    requires k in KeyMap(keys)
    ensures KeyMap(keys)[k] < |keys| && keys[KeyMap(keys)[k]] == Some(k)
    decreases |keys|
  {
    var init := keys[..|keys| - 1];
    if keys[|keys| - 1] != Some(k) {
      KeyMapSound(init, k);
      assert keys[KeyMap(init)[k]] == init[KeyMap(init)[k]];
    }
  }

  /** Every key is in the map, at its own position or a later one. */
  lemma {:induction false} KeyMapComplete(keys: seq<Option<string>>, i: nat, k: string)
    requires i < |keys| && keys[i] == Some(k)
    ensures k in KeyMap(keys) && KeyMap(keys)[k] >= i
    decreases |keys|
  {
    if i < |keys| - 1 {
      var init := keys[..|keys| - 1];
      assert init[i] == keys[i];
      KeyMapComplete(init, i, k);
    }
  }

  /** A key of the header map is the normalised text of the non-None cell at its
      column, and that column is the last one that normalises to it. */
  lemma HeaderMapSound(header: seq<Cell>, k: string)
    requires k in HeaderMap(header)
    ensures HeaderMap(header)[k] < |header|
    ensures HeaderKey(header[HeaderMap(header)[k]]) == Some(k)
    ensures forall j | HeaderMap(header)[k] < j < |header| :: HeaderKey(header[j]) != Some(k)
  {
    var keys := seq(|header|, i requires 0 <= i < |header| => HeaderKey(header[i]));
    KeyMapSound(keys, k);
    forall j | HeaderMap(header)[k] < j < |header|
      ensures HeaderKey(header[j]) != Some(k)
    {
      if keys[j] == Some(k) {
        KeyMapComplete(keys, j, k);
      }
    }
  }

  /** Every non-None header cell's key is in the header map. */
  lemma HeaderMapComplete(header: seq<Cell>, i: nat)
    requires i < |header| && !header[i].CNone?
    ensures KeyNorm(CellStr(header[i])) in HeaderMap(header)
  {
    var keys := seq(|header|, j requires 0 <= j < |header| => HeaderKey(header[j]));
    assert keys[i] == Some(KeyNorm(CellStr(header[i])));
    KeyMapComplete(keys, i, KeyNorm(CellStr(header[i])));
  }

  // ---------------------------------------------------------------------------
  // Worksheet selection

  /** Some alias of the group is a header key (`any(a in header_map for a in group)`). */
  predicate HasGroup(hm: map<string, nat>, group: seq<string>) {
    exists i | 0 <= i < |group| :: group[i] in hm
  }

  /** A worksheet the loader accepts: it has a first row, and its header map holds an
      alias from every required group. */
  predicate Qualifies(ws: Worksheet, required: seq<seq<string>>) {
    |ws.rows| > 0 && forall g | 0 <= g < |required| :: HasGroup(HeaderMap(ws.rows[0]), required[g])
  }

  /** The first qualifying worksheet from `from` on. */
  function FirstQualifying(wb: seq<Worksheet>, required: seq<seq<string>>, from: nat): (r: Option<nat>)
    requires from <= |wb|
    ensures r.Some? ==> from <= r.value < |wb| && Qualifies(wb[r.value], required)
    ensures r.Some? ==> forall j | from <= j < r.value :: !Qualifies(wb[j], required)
    ensures r.None? <==> forall j | from <= j < |wb| :: !Qualifies(wb[j], required)
  {
    FirstWhere(wb, from, ws => Qualifies(ws, required))
  }

  const NoSheetMessage: string := "XLSX: no se encontro una hoja con las columnas requeridas."

  /** Group `h` has no alias among the header keys. */
  predicate MissingGroup(hm: map<string, nat>, required: seq<seq<string>>, h: int) {
    0 <= h < |required| && !HasGroup(hm, required[h])
  }

  /** The group loop: whether every group has an alias among the header keys, stopping at
      the first group that has none. */
  method HasAllGroups(hm: map<string, nat>, required: seq<seq<string>>) returns (ok: bool)
    ensures ok <==> forall g | 0 <= g < |required| :: HasGroup(hm, required[g])
  {
    ok := true;
    var g := 0;
    while g < |required|
      invariant g <= |required|
      invariant ok ==> forall h | 0 <= h < g :: HasGroup(hm, required[h])
      invariant !ok ==> exists h :: MissingGroup(hm, required, h)
    {
      if !HasGroup(hm, required[g]) {
        ok := false;
        break;
      }
      g := g + 1;
    }
  }

  /** `_select_worksheet_with_columns`: the index of the first worksheet that qualifies,
      or ErrorIngestion when none does. */
  method SelectWorksheetWithColumns(wb: seq<Worksheet>, required: seq<seq<string>>) returns (r: Result<nat, Exc>)
    ensures r.Ok? ==> FirstQualifying(wb, required, 0) == Some(r.value)
    ensures r.Err? ==> FirstQualifying(wb, required, 0).None? && r.error == Ingestion(NoSheetMessage)
  {
    var s := 0;
    while s < |wb|
      invariant s <= |wb|
      invariant FirstQualifying(wb, required, 0) == FirstQualifying(wb, required, s)
    {
      var ws := wb[s];
      if |ws.rows| > 0 {
        var ok := HasAllGroups(HeaderMap(ws.rows[0]), required);
        if ok {
          return Ok(s);
        }
      }
      s := s + 1;
    }
    return Err(Ingestion(NoSheetMessage));
  }

  /** The `col(*names)` helper: the column of the first alias that is a header key. */
  function Col(hm: map<string, nat>, names: seq<string>): (r: Option<nat>)
    ensures r.None? <==> forall i | 0 <= i < |names| :: names[i] !in hm
    decreases |names|
  {
    if names == [] then None
    else if names[0] in hm then Some(hm[names[0]])
    else Col(hm, names[1..])
  }

  /** The first alias present decides the column. */
  lemma {:induction false} ColFirst(hm: map<string, nat>, names: seq<string>, i: nat)
    requires i < |names| && names[i] in hm
    requires forall j | 0 <= j < i :: names[j] !in hm
    ensures Col(hm, names) == Some(hm[names[i]])
    decreases i
  {
    if i > 0 {
      assert names[0] !in hm;
      assert forall j | 0 <= j < i - 1 :: names[1..][j] == names[j + 1];
      ColFirst(hm, names[1..], i - 1);
    }
  }

  // ---------------------------------------------------------------------------
  // Column aliases

  const FechaOpAliases: seq<string> := ["fecha_operacion", "fecha", "fecha_movimiento"]
  const FechaCtAliases: seq<string> := ["fecha_contable", "fecha_valor", "fecha_proceso"]
  const MontoAliases: seq<string> := ["monto", "importe", "valor"]
  const MonedaAliases: seq<string> := ["moneda", "currency"]
  const DescAliases: seq<string> := ["descripcion", "glosa", "detalle", "concepto"]
  const BankRefAliases: seq<string> := ["referencia", "ref", "comprobante", "folio", "nro_referencia"]
  const CuentaAliases: seq<string> := ["cuenta", "nro_cuenta", "cuenta_origen"]

  const IdAliases: seq<string> := ["id", "id_externo"]
  const FechaAliases: seq<string> := ["fecha", "fecha_documento"]
  const ExpRefAliases: seq<string> := ["referencia", "ref", "folio", "nro_referencia"]
  const TerceroAliases: seq<string> := ["tercero", "proveedor", "cliente"]

  const BankRequired: seq<seq<string>> := [FechaOpAliases, MontoAliases, DescAliases]
  const ExpRequired: seq<seq<string>> := [FechaAliases, MontoAliases, DescAliases]

  /** The columns of a bank sheet; the three required ones are always found. */
  datatype BankCols = BankCols(
    fechaOp: nat, fechaCt: Option<nat>, monto: nat, moneda: Option<nat>,
    desc: nat, ref: Option<nat>, cuenta: Option<nat>)

  datatype ExpCols = ExpCols(
    id: Option<nat>, fecha: nat, monto: nat, moneda: Option<nat>,
    desc: nat, ref: Option<nat>, tercero: Option<nat>)

  /** A group with an alias present has a column. */
  lemma ColOfGroup(hm: map<string, nat>, group: seq<string>)
    requires HasGroup(hm, group)
    ensures Col(hm, group).Some?
  {
  }

  function BankColumns(hm: map<string, nat>): (c: BankCols)
    requires forall g | 0 <= g < |BankRequired| :: HasGroup(hm, BankRequired[g])
  {
    assert HasGroup(hm, BankRequired[0]) && HasGroup(hm, BankRequired[1]) && HasGroup(hm, BankRequired[2]);
    ColOfGroup(hm, FechaOpAliases);
    ColOfGroup(hm, MontoAliases);
    ColOfGroup(hm, DescAliases);
    BankCols(
      Col(hm, FechaOpAliases).value, Col(hm, FechaCtAliases), Col(hm, MontoAliases).value,
      Col(hm, MonedaAliases), Col(hm, DescAliases).value, Col(hm, BankRefAliases), Col(hm, CuentaAliases))
  }

  function ExpColumns(hm: map<string, nat>): (c: ExpCols)
    requires forall g | 0 <= g < |ExpRequired| :: HasGroup(hm, ExpRequired[g])
  {
    assert HasGroup(hm, ExpRequired[0]) && HasGroup(hm, ExpRequired[1]) && HasGroup(hm, ExpRequired[2]);
    ColOfGroup(hm, FechaAliases);
    ColOfGroup(hm, MontoAliases);
    ColOfGroup(hm, DescAliases);
    ExpCols(
      Col(hm, IdAliases), Col(hm, FechaAliases).value, Col(hm, MontoAliases).value,
      Col(hm, MonedaAliases), Col(hm, DescAliases).value, Col(hm, ExpRefAliases), Col(hm, TerceroAliases))
  }

  // ---------------------------------------------------------------------------
  // Reading the cells of one row

  const IndexErrorText: string := "tuple index out of range"

  /** `row[c]` inside the `try`: a short row gives IndexError's text. */
  function CellAt(row: seq<Cell>, c: nat): (r: Result<Cell, string>)
    ensures r.Ok? <==> c < |row|
    ensures r.Ok? ==> r.value == row[c]
    ensures r.Err? ==> r.error == IndexErrorText
  {
    if c < |row| then Ok(row[c]) else Err(IndexErrorText)
  }

  /** `_as_date(row[c])` inside the `try`, failing with the text of the exception. */
  function DateAt(row: seq<Cell>, c: nat): (r: Result<PyDate, string>)
  {
    var cell :- CellAt(row, c);
    match AsDate(cell)
    case Err(e) => Err(ParseErrorMessage(e))
    case Ok(d) => Ok(d)
  }

  /** `parse_monto_clp(_as_text(row[c]))` inside the `try`. */
  function MontoAt(row: seq<Cell>, c: nat): (r: Result<int, string>)
  {
    var cell :- CellAt(row, c);
    match ParseMontoClp(AsText(cell))
    case Err(e) => Err(ParseErrorMessage(e))
    case Ok(m) => Ok(m)
  }

  /** The accounting date: read only when its column exists and the cell is truthy. */
  function OptDateAt(row: seq<Cell>, c: Option<nat>): (r: Result<Option<PyDate>, string>)
    ensures c.None? ==> r == Ok(None)
    ensures c.Some? && c.value < |row| && !Truthy(row[c.value]) ==> r == Ok(None)
  {
    if c.None? then Ok(None)
    else
      var cell :- CellAt(row, c.value);
      if !Truthy(cell) then Ok(None)
      else
        var d :- DateAt(row, c.value);
        Ok(Some(d))
  }

  /** `_as_text(row[c])` outside the `try`: a short row raises IndexError itself. */
  function TextAt(row: seq<Cell>, c: nat): (r: Result<string, Exc>)
    ensures r.Ok? <==> c < |row|
    ensures r.Ok? ==> r.value == AsText(row[c])
    ensures r.Err? ==> r.error == Other("IndexError", IndexErrorText)
  {
    if c < |row| then Ok(AsText(row[c])) else Err(Other("IndexError", IndexErrorText))
  }

  /** `_as_text(row[c]) if c is not None else ""`. */
  function OptTextAt(row: seq<Cell>, c: Option<nat>): (r: Result<string, Exc>)
    ensures c.None? ==> r == Ok("")
    ensures c.Some? ==> (r.Ok? <==> c.value < |row|)
    ensures c.Some? && r.Ok? ==> r.value == AsText(row[c.value])
    ensures r.Err? ==> r.error == Other("IndexError", IndexErrorText)
  {
    if c.None? then Ok("") else TextAt(row, c.value)
  }

  /** The ErrorIngestion a row whose date or amount cannot be read raises. */
  function FilaInvalida(idx: int, msg: string): Exc {
    Ingestion("Fila " + IntToString(idx) + ": parseo invalido: " + msg)
  }

  /** `x or y` on texts. */
  function OrElse(s: string, d: string): string {
    if s != [] then s else d
  }

  /** The currency: the cell's normalised text, or the configured default when it is
      empty, in upper case. */
  function MonedaOf(raw: string, monedaDefault: string): (r: string)
    ensures NormalizarTexto(raw) == [] ==> r == Upper(monedaDefault)
  {
    Upper(OrElse(NormalizarTexto(raw), monedaDefault))
  }

  /** The reference: normalised when the cell's normalised text is not empty. */
  function RefOf(raw: string): (r: string)
    ensures forall i | 0 <= i < |r| :: !IsLowerAscii(r[i])
  {
    var refRaw := NormalizarTexto(raw);
    if refRaw != [] then NormalizarReferencia(refRaw) else ""
  }

  /** `value or None` for a text going into the id's data. */
  function OptJStr(s: string): JsonValue {
    if s != [] then JStr(s) else JNull
  }

  /** `_id`: the prefix, a dash and the first 12 characters of the stable hash of the
      file's name, the row number and the normalised data. */
  function RecordId(sha256: string -> Digest, path: string, idx: int, data: map<string, JsonValue>, prefix: string): (r: string)
    ensures |r| == |prefix| + 13 && StartsWith(r, prefix + "-")
  {
    prefix + "-" + DigestPrefix(Sha256JsonEstable(sha256, JObj(map["file" := JStr(PathName(path)), "row" := JInt(idx), "data" := JObj(data)])), 12)
  }

  const TxPrefix: string := "TX"
  const ExpPrefix: string := "EXP"

  /** The id depends on the file's name, not on the directory it sits in. */
  lemma RecordIdIgnoresDirectory(sha256: string -> Digest, p1: string, p2: string, idx: int, data: map<string, JsonValue>, prefix: string)
    requires PathName(p1) == PathName(p2)
    ensures RecordId(sha256, p1, idx, data, prefix) == RecordId(sha256, p2, idx, data, prefix)
  {
  }

  // ---------------------------------------------------------------------------
  // Bank rows

  /** What the `try` block of a bank row reads. */
  datatype BankParsed = BankParsed(fechaOp: PyDate, fechaCt: Option<PyDate>, monto: int)

  /** The `try` block: the operation date, the accounting date when present, the amount, in
      that order; the first failure's text. */
  function ParseBankCells(row: seq<Cell>, cols: BankCols): (r: Result<BankParsed, string>)
  {
    var fo :- DateAt(row, cols.fechaOp);
    var fc :- OptDateAt(row, cols.fechaCt);
    var m :- MontoAt(row, cols.monto);
    Ok(BankParsed(fo, fc, m))
  }

  function BankDataNorm(p: BankParsed, moneda: string, desc: string, ref: string): map<string, JsonValue> {
    map[
      "fecha_operacion" := JStr(IsoFormat(p.fechaOp)),
      "fecha_contable" := (if p.fechaCt.Some? then JStr(IsoFormat(p.fechaCt.value)) else JNull),
      "monto" := JStr(IntToString(p.monto)),
      "moneda" := JStr(moneda),
      "descripcion" := JStr(desc),
      "referencia" := OptJStr(ref)]
  }

  /** The masked account: none when the cell's normalised text is empty. */
  function MaskedCuenta(rawCuenta: string): (r: Option<string>)
    ensures r.None? <==> NormalizarTexto(rawCuenta) == []
    ensures r.Some? ==> Masking.Exposed(r.value) <= 4
  {
    var cuentaRaw := NormalizarTexto(rawCuenta);
    Masking.MaskingExposesLittle(cuentaRaw);
    if cuentaRaw != [] then Some(Masking.EnmascararCuenta(cuentaRaw)) else None
  }

  /** A text field with alta confidence, or none when the text is empty. */
  function OptTextCampo(s: string, degrade: real): (r: Option<CampoConConfianza>)
    ensures r.None? <==> s == []
    ensures r.Some? ==> r.value.valor == VStr(s)
  {
    if s != [] then Some(XlsxCampo(VStr(s), degrade)) else None
  }

  /** The bank transaction built from a row's values, before pydantic validates it. */
  function AssembleTx(id: string, cuentaMask: Option<string>, p: BankParsed, moneda: string, desc: string,
                      ref: string, archivo: string, idx: int): (t: TransaccionBancaria)
    requires id != []
    ensures ValidTransaccion(t) <==> IsMoneda(moneda) && archivo != []
    ensures t.id == id && t.cuentaMask == cuentaMask && t.moneda == moneda
    ensures t.origen == Xlsx && !t.bloquea && t.motivo.None? && t.banco.None?
    ensures t.filaOrigen == Some(idx) && t.archivoOrigen == archivo
    ensures t.fechaOperacion.valor == VDate(p.fechaOp) && t.fechaOperacion.confianza.nivel == Alta
    ensures t.monto.valor == VDecimal(p.monto) && t.monto.confianza.nivel == Alta
    ensures t.fechaContable.Some? <==> p.fechaCt.Some?
    ensures t.fechaContable.Some? ==> t.fechaContable.value.confianza.nivel == Media
  {
    XlsxLevels();
    TransaccionBancaria(
      id, cuentaMask, None, false, None,
      XlsxCampo(VDate(p.fechaOp), 0.0),
      if p.fechaCt.Some? then Some(XlsxCampo(VDate(p.fechaCt.value), 0.10)) else None,
      XlsxCampo(VDecimal(p.monto), 0.0),
      moneda,
      XlsxCampo(VStr(desc), 0.0),
      OptTextCampo(ref, 0.0),
      archivo, Xlsx, Some(idx))
  }

  /** The bank transaction a row describes, before pydantic validates it. */
  function BankRecord(sha256: string -> Digest, path: string, monedaDefault: string, idx: int, p: BankParsed,
                      rawMoneda: string, rawDesc: string, rawRef: string, rawCuenta: string): (t: TransaccionBancaria)
    ensures ValidTransaccion(t) <==> IsMoneda(t.moneda) && PathName(path) != []
    ensures StartsWith(t.id, TxPrefix + "-") && |t.id| == 15
    ensures t.origen == Xlsx && !t.bloquea && t.motivo.None? && t.banco.None?
    ensures t.filaOrigen == Some(idx) && t.archivoOrigen == PathName(path)
    ensures t.moneda == MonedaOf(rawMoneda, monedaDefault)
    ensures t.cuentaMask.Some? ==> Masking.Exposed(t.cuentaMask.value) <= 4
    ensures t.cuentaMask.None? <==> NormalizarTexto(rawCuenta) == []
    ensures t.fechaOperacion.valor == VDate(p.fechaOp) && t.fechaOperacion.confianza.nivel == Alta
    ensures t.monto.valor == VDecimal(p.monto) && t.monto.confianza.nivel == Alta
    ensures t.fechaContable.Some? <==> p.fechaCt.Some?
    ensures t.fechaContable.Some? ==> t.fechaContable.value.confianza.nivel == Media
  {
    var moneda := MonedaOf(rawMoneda, monedaDefault);
    var desc := NormalizarTexto(rawDesc);
    var ref := RefOf(rawRef);
    var id := RecordId(sha256, path, idx, BankDataNorm(p, moneda, desc, ref), TxPrefix);
    AssembleTx(id, MaskedCuenta(rawCuenta), p, moneda, desc, ref, PathName(path), idx)
  }

  /** The record's pydantic validation: it fails exactly when the currency is not three
      capitals or the file has no name. */
  function BankValidate(sha256: string -> Digest, path: string, monedaDefault: string, idx: int, p: BankParsed,
                        rawMoneda: string, rawDesc: string, rawRef: string, rawCuenta: string): (r: Result<TransaccionBancaria, Exc>)
    ensures r.Ok? <==> IsMoneda(MonedaOf(rawMoneda, monedaDefault)) && PathName(path) != []
    ensures r.Ok? ==> r.value == BankRecord(sha256, path, monedaDefault, idx, p, rawMoneda, rawDesc, rawRef, rawCuenta)
    ensures r.Err? ==> r.error.Validation?
  {
    match MakeTransaccion(BankRecord(sha256, path, monedaDefault, idx, p, rawMoneda, rawDesc, rawRef, rawCuenta))
    case Err(ve) => Err(Validation(ve))
    case Ok(t) => Ok(t)
  }

  /** A bank row past its `try` block: the currency, description, reference and account
      cells in that order, then the record's validation. */
  function BankFinish(sha256: string -> Digest, path: string, monedaDefault: string, cols: BankCols, idx: int, row: seq<Cell>, p: BankParsed): (r: Result<TransaccionBancaria, Exc>)
    ensures r.Ok? ==> ValidTransaccion(r.value) && r.value.origen == Xlsx && r.value.filaOrigen == Some(idx)
    ensures r.Ok? ==> StartsWith(r.value.id, TxPrefix + "-") && !r.value.bloquea && r.value.archivoOrigen == PathName(path)
  {
    var rawMoneda :- OptTextAt(row, cols.moneda);
    var rawDesc :- TextAt(row, cols.desc);
    var rawRef :- OptTextAt(row, cols.ref);
    var rawCuenta :- OptTextAt(row, cols.cuenta);
    BankValidate(sha256, path, monedaDefault, idx, p, rawMoneda, rawDesc, rawRef, rawCuenta)
  }

  /** One bank row: the `try` block, whose failure becomes ErrorIngestion, then the rest. */
  function BankRow(sha256: string -> Digest, path: string, monedaDefault: string, cols: BankCols, idx: int, row: seq<Cell>): (r: Result<TransaccionBancaria, Exc>)
    ensures r.Ok? ==> ValidTransaccion(r.value) && r.value.origen == Xlsx && r.value.filaOrigen == Some(idx)
    ensures r.Ok? ==> StartsWith(r.value.id, TxPrefix + "-") && !r.value.bloquea && r.value.archivoOrigen == PathName(path)
    ensures ParseBankCells(row, cols).Err? ==> r == Err(FilaInvalida(idx, ParseBankCells(row, cols).error))
  {
    match ParseBankCells(row, cols)
    case Err(msg) => Err(FilaInvalida(idx, msg))
    case Ok(p) => BankFinish(sha256, path, monedaDefault, cols, idx, row, p)
  }

  /** Past the `try` block, a row whose cells exist and whose currency is three capitals
      always gives a record when the file has a name. */
  lemma BankFinishAccepted(sha256: string -> Digest, path: string, monedaDefault: string, cols: BankCols, idx: int, row: seq<Cell>, p: BankParsed)
    requires cols.desc < |row|
    requires cols.moneda.Some? ==> cols.moneda.value < |row|
    requires cols.ref.Some? ==> cols.ref.value < |row|
    requires cols.cuenta.Some? ==> cols.cuenta.value < |row|
    requires IsMoneda(MonedaOf(OptTextAt(row, cols.moneda).value, monedaDefault))
    requires PathName(path) != []
    ensures BankFinish(sha256, path, monedaDefault, cols, idx, row, p).Ok?
  {
    var rawMoneda := OptTextAt(row, cols.moneda).value;
    var rawDesc := TextAt(row, cols.desc).value;
    var rawRef := OptTextAt(row, cols.ref).value;
    var rawCuenta := OptTextAt(row, cols.cuenta).value;
    var v := BankValidate(sha256, path, monedaDefault, idx, p, rawMoneda, rawDesc, rawRef, rawCuenta);
    assert v.Ok?;
    assert BankFinish(sha256, path, monedaDefault, cols, idx, row, p) == v;
  }

  /** The function the bank loader's row loop applies. */
  function BankRowFn(sha256: string -> Digest, path: string, monedaDefault: string, cols: BankCols): (int, seq<Cell>) -> Result<TransaccionBancaria, Exc> {
    (idx: int, row: seq<Cell>) => BankRow(sha256, path, monedaDefault, cols, idx, row)
  }

  /** A successful bank load holds one valid xlsx record per non-blank row, each with its
      sheet row number, in sheet order. */
  lemma BankRowsFacts(sha256: string -> Digest, path: string, monedaDefault: string, cols: BankCols, rows: seq<seq<Cell>>, k: nat)
    requires k <= |rows|
    ensures RowsFrom(BankRowFn(sha256, path, monedaDefault, cols), BlankRow, rows, k).Ok? ==>
      |RowsFrom(BankRowFn(sha256, path, monedaDefault, cols), BlankRow, rows, k).value| == |KeptRowNumbers(BlankRow, rows, k)|
    ensures RowsFrom(BankRowFn(sha256, path, monedaDefault, cols), BlankRow, rows, k).Ok? ==>
      forall j | 0 <= j < |KeptRowNumbers(BlankRow, rows, k)| ::
        RecordOfRow(RowsFrom(BankRowFn(sha256, path, monedaDefault, cols), BlankRow, rows, k).value, j, KeptRowNumbers(BlankRow, rows, k), path)
  {
    var f := BankRowFn(sha256, path, monedaDefault, cols);
    var rs := RowResults(f, BlankRow, rows, k);
    var ns := KeptRowNumbers(BlankRow, rows, k);
    RowResultsAt(f, BlankRow, rows, k);
    CollectOk(rs);
    var r := Collect(rs);
    if r.Ok? {
      forall j | 0 <= j < |ns|
        ensures RecordOfRow(r.value, j, ns, path)
      {
        assert rs[j] == Ok(r.value[j]);
        assert rs[j] == BankRow(sha256, path, monedaDefault, cols, ns[j], rows[ns[j] - 1]);
      }
    }
  }

  /** Record `j` of a bank load is a valid xlsx record of sheet row `ns[j]`. */
  predicate RecordOfRow(ts: seq<TransaccionBancaria>, j: int, ns: seq<nat>, path: string)
    requires 0 <= j < |ts| && j < |ns|
  {
    ValidTransaccion(ts[j]) && ts[j].origen == Xlsx && ts[j].filaOrigen == Some(ns[j] as int) && ts[j].archivoOrigen == PathName(path)
  }

  /** A failing load raises the error of its first failing non-blank row; the rows before
      it read correctly. */
  lemma RowsFromError<T>(f: (int, seq<Cell>) -> Result<T, Exc>, skip: seq<Cell> -> bool, rows: seq<seq<Cell>>, k: nat)
    requires k <= |rows|
    ensures RowsFrom(f, skip, rows, k).Err? ==> exists j | 0 <= j < |KeptRowNumbers(skip, rows, k)| ::
      FirstFailure(f, rows, KeptRowNumbers(skip, rows, k), j, RowsFrom(f, skip, rows, k).error)
  {
    var rs := RowResults(f, skip, rows, k);
    var ns := KeptRowNumbers(skip, rows, k);
    RowResultsAt(f, skip, rows, k);
    CollectErr(rs);
    if Collect(rs).Err? {
      var j :| 0 <= j < |rs| && rs[j] == Err(Collect(rs).error) && forall i | 0 <= i < j :: rs[i].Ok?;
      assert FirstFailure(f, rows, ns, j, Collect(rs).error);
    }
  }

  /** Kept row `ns[j]` fails with `e` and every kept row before it reads. */
  predicate FirstFailure<T>(f: (int, seq<Cell>) -> Result<T, Exc>, rows: seq<seq<Cell>>, ns: seq<nat>, j: int, e: Exc)
    requires 0 <= j < |ns| && forall i | 0 <= i < |ns| :: 1 <= ns[i] <= |rows|
  {
    f(ns[j], rows[ns[j] - 1]) == Err(e) && forall i | 0 <= i < j :: f(ns[i], rows[ns[i] - 1]).Ok?
  }

  /** The audit event a loader writes once it has picked the worksheet. */
  function LoadedEvent(mensaje: string, path: string, ws: Worksheet): AuditEvent {
    AuditEvent("ingestion", mensaje, map["archivo" := JStr(PathName(path)), "hoja" := JStr(ws.title)])
  }

  const BankLoadedMessage: string := "XLSX banco cargado"
  const ExpLoadedMessage: string := "XLSX esperados cargado"

  /** What `cargar_transacciones_xlsx` returns or raises, given whether the audit write
      raises. */
  function CargaBanco(sha256: string -> Digest, path: string, wb: seq<Worksheet>, monedaDefault: string, auditFailure: Option<Exc>): (r: Result<seq<TransaccionBancaria>, Exc>)
    ensures FirstQualifying(wb, BankRequired, 0).None? ==> r == Err(Ingestion(NoSheetMessage))
    ensures FirstQualifying(wb, BankRequired, 0).Some? && auditFailure.Some? ==> r == Err(auditFailure.value)
  {
    match FirstQualifying(wb, BankRequired, 0)
    case None => Err(Ingestion(NoSheetMessage))
    case Some(s) =>
      if auditFailure.Some? then Err(auditFailure.value)
      else RowsFrom(BankRowFn(sha256, path, monedaDefault, BankColumns(HeaderMap(wb[s].rows[0]))), BlankRow, wb[s].rows, 1)
  }


  /** `cargar_transacciones_xlsx` on a workbook already read. */
  method CargarTransaccionesXlsx(sha256: string -> Digest, path: string, wb: seq<Worksheet>, cfg: ConfiguracionCliente, audit: AuditSink)
    returns (r: Result<seq<TransaccionBancaria>, Exc>)
    modifies Footprint(audit)
    ensures r == CargaBanco(sha256, path, wb, cfg.monedaDefault, AuditFailure(audit))
    ensures match FirstQualifying(wb, BankRequired, 0)
      case None => Logged(audit) == old(Logged(audit))
      case Some(s) => Logged(audit) == old(Logged(audit)) + (if Fails(audit) then [] else Added(audit, [LoadedEvent(BankLoadedMessage, path, wb[s])]))
  {
    var sel := SelectWorksheetWithColumns(wb, BankRequired);
    if sel.Err? {
      return Err(sel.error);
    }
    var ws := wb[sel.value];
    var cols := BankColumns(HeaderMap(ws.rows[0]));
    var w := Emit(audit, LoadedEvent(BankLoadedMessage, path, ws));
    if w.Fail? {
      return Err(w.error);
    }
    r := LoadRows(BankRowFn(sha256, path, cfg.monedaDefault, cols), BlankRow, ws.rows);
  }

  // ---------------------------------------------------------------------------
  // Expected-movement rows

  datatype ExpParsed = ExpParsed(fecha: PyDate, monto: int)

  /** The `try` block of an expected-movement row: the date, then the amount. */
  function ParseExpCells(row: seq<Cell>, cols: ExpCols): (r: Result<ExpParsed, string>)
  {
    var f :- DateAt(row, cols.fecha);
    var m :- MontoAt(row, cols.monto);
    Ok(ExpParsed(f, m))
  }

  function ExpDataNorm(p: ExpParsed, moneda: string, desc: string, ref: string, tercero: string): map<string, JsonValue> {
    map[
      "fecha" := JStr(IsoFormat(p.fecha)),
      "monto" := JStr(IntToString(p.monto)),
      "moneda" := JStr(moneda),
      "descripcion" := JStr(desc),
      "referencia" := OptJStr(ref),
      "tercero" := OptJStr(tercero)]
  }

  /** The expected movement built from a row's values, before pydantic validates it. */
  function AssembleMov(id: string, p: ExpParsed, moneda: string, desc: string, ref: string, tercero: string): (m: MovimientoEsperado)
    requires id != []
    ensures ValidMovimiento(m) <==> IsMoneda(moneda)
    ensures m.id == id && m.moneda == moneda
    ensures m.fecha.valor == VDate(p.fecha) && m.fecha.confianza.nivel == Alta
    ensures m.monto.valor == VDecimal(p.monto) && m.monto.confianza.nivel == Alta
    ensures m.tercero.Some? <==> tercero != []
    ensures m.tercero.Some? ==> m.tercero.value.confianza.nivel == Media && m.tercero.value.confianza.score == 0.70
  {
    XlsxLevels();
    MovimientoEsperado(
      id,
      XlsxCampo(VDate(p.fecha), 0.0),
      XlsxCampo(VDecimal(p.monto), 0.0),
      moneda,
      XlsxCampo(VStr(desc), 0.0),
      OptTextCampo(ref, 0.0),
      OptTextCampo(tercero, 0.20))
  }

  /** The expected movement's id: the id cell's normalised text, or a derived id when it is
      empty. */
  function ExpId(sha256: string -> Digest, path: string, idx: int, idExt: string, data: map<string, JsonValue>): (id: string)
    ensures idExt != [] ==> id == idExt
    ensures idExt == [] ==> StartsWith(id, ExpPrefix + "-") && |id| == 16
  {
    if idExt != [] then idExt else RecordId(sha256, path, idx, data, ExpPrefix)
  }

  /** The expected movement a row describes, before pydantic validates it. */
  function ExpRecord(sha256: string -> Digest, path: string, monedaDefault: string, idx: int, p: ExpParsed,
                     rawMoneda: string, rawDesc: string, rawRef: string, rawTercero: string, rawId: string): (m: MovimientoEsperado)
    ensures ValidMovimiento(m) <==> IsMoneda(m.moneda)
    ensures NormalizarTexto(rawId) != [] ==> m.id == NormalizarTexto(rawId)
    ensures NormalizarTexto(rawId) == [] ==> StartsWith(m.id, ExpPrefix + "-") && |m.id| == 16
    ensures NormalizarTexto(rawMoneda) == [] ==> m.moneda == Upper(monedaDefault)
    ensures m.fecha.valor == VDate(p.fecha) && m.fecha.confianza.nivel == Alta
    ensures m.monto.valor == VDecimal(p.monto) && m.monto.confianza.nivel == Alta
    ensures m.tercero.Some? <==> NormalizarTexto(rawTercero) != []
    ensures m.tercero.Some? ==> m.tercero.value.confianza.nivel == Media && m.tercero.value.confianza.score == 0.70
  {
    var moneda := MonedaOf(rawMoneda, monedaDefault);
    var desc := NormalizarTexto(rawDesc);
    var ref := RefOf(rawRef);
    var tercero := NormalizarTexto(rawTercero);
    var id := ExpId(sha256, path, idx, NormalizarTexto(rawId), ExpDataNorm(p, moneda, desc, ref, tercero));
    AssembleMov(id, p, moneda, desc, ref, tercero)
  }

  /** An expected-movement row past its `try` block: the currency, description,
      reference, counterparty and id cells in that order, then validation. */
  function ExpFinish(sha256: string -> Digest, path: string, monedaDefault: string, cols: ExpCols, idx: int, row: seq<Cell>, p: ExpParsed): (r: Result<MovimientoEsperado, Exc>)
    ensures r.Ok? ==> ValidMovimiento(r.value)
  {
    var rawMoneda :- OptTextAt(row, cols.moneda);
    var rawDesc :- TextAt(row, cols.desc);
    var rawRef :- OptTextAt(row, cols.ref);
    var rawTercero :- OptTextAt(row, cols.tercero);
    var rawId :- OptTextAt(row, cols.id);
    match MakeMovimiento(ExpRecord(sha256, path, monedaDefault, idx, p, rawMoneda, rawDesc, rawRef, rawTercero, rawId))
    case Err(ve) => Err(Validation(ve))
    case Ok(m) => Ok(m)
  }

  /** One expected-movement row: the `try` block, whose failure becomes ErrorIngestion,
      then the rest. */
  function ExpRow(sha256: string -> Digest, path: string, monedaDefault: string, cols: ExpCols, idx: int, row: seq<Cell>): (r: Result<MovimientoEsperado, Exc>)
    ensures r.Ok? ==> ValidMovimiento(r.value)
    ensures ParseExpCells(row, cols).Err? ==> r == Err(FilaInvalida(idx, ParseExpCells(row, cols).error))
  {
    match ParseExpCells(row, cols)
    case Err(msg) => Err(FilaInvalida(idx, msg))
    case Ok(p) => ExpFinish(sha256, path, monedaDefault, cols, idx, row, p)
  }

  /** The function the expected-movement loader's row loop applies. */
  function ExpRowFn(sha256: string -> Digest, path: string, monedaDefault: string, cols: ExpCols): (int, seq<Cell>) -> Result<MovimientoEsperado, Exc> {
    (idx: int, row: seq<Cell>) => ExpRow(sha256, path, monedaDefault, cols, idx, row)
  }

  /** A successful expected-movement load holds one valid record per non-blank row. */
  lemma ExpRowsFacts(sha256: string -> Digest, path: string, monedaDefault: string, cols: ExpCols, rows: seq<seq<Cell>>, k: nat)
    requires k <= |rows|
    ensures RowsFrom(ExpRowFn(sha256, path, monedaDefault, cols), BlankRow, rows, k).Ok? ==>
      |RowsFrom(ExpRowFn(sha256, path, monedaDefault, cols), BlankRow, rows, k).value| == |KeptRowNumbers(BlankRow, rows, k)|
    ensures RowsFrom(ExpRowFn(sha256, path, monedaDefault, cols), BlankRow, rows, k).Ok? ==>
      forall j | 0 <= j < |RowsFrom(ExpRowFn(sha256, path, monedaDefault, cols), BlankRow, rows, k).value| ::
        ValidMovimiento(RowsFrom(ExpRowFn(sha256, path, monedaDefault, cols), BlankRow, rows, k).value[j])
  {
    var f := ExpRowFn(sha256, path, monedaDefault, cols);
    var rs := RowResults(f, BlankRow, rows, k);
    var ns := KeptRowNumbers(BlankRow, rows, k);
    RowResultsAt(f, BlankRow, rows, k);
    CollectOk(rs);
    var r := Collect(rs);
    if r.Ok? {
      forall j | 0 <= j < |r.value|
        ensures ValidMovimiento(r.value[j])
      {
        assert rs[j] == Ok(r.value[j]);
        assert rs[j] == ExpRow(sha256, path, monedaDefault, cols, ns[j], rows[ns[j] - 1]);
      }
    }
  }

  function CargaEsperados(sha256: string -> Digest, path: string, wb: seq<Worksheet>, monedaDefault: string, auditFailure: Option<Exc>): (r: Result<seq<MovimientoEsperado>, Exc>)
    ensures FirstQualifying(wb, ExpRequired, 0).None? ==> r == Err(Ingestion(NoSheetMessage))
    ensures FirstQualifying(wb, ExpRequired, 0).Some? && auditFailure.Some? ==> r == Err(auditFailure.value)
  {
    match FirstQualifying(wb, ExpRequired, 0)
    case None => Err(Ingestion(NoSheetMessage))
    case Some(s) =>
      if auditFailure.Some? then Err(auditFailure.value)
      else RowsFrom(ExpRowFn(sha256, path, monedaDefault, ExpColumns(HeaderMap(wb[s].rows[0]))), BlankRow, wb[s].rows, 1)
  }

  /** `cargar_movimientos_esperados_xlsx` on a workbook already read. */
  method CargarMovimientosEsperadosXlsx(sha256: string -> Digest, path: string, wb: seq<Worksheet>, cfg: ConfiguracionCliente, audit: AuditSink)
    returns (r: Result<seq<MovimientoEsperado>, Exc>)
    modifies Footprint(audit)
    ensures r == CargaEsperados(sha256, path, wb, cfg.monedaDefault, AuditFailure(audit))
    ensures match FirstQualifying(wb, ExpRequired, 0)
      case None => Logged(audit) == old(Logged(audit))
      case Some(s) => Logged(audit) == old(Logged(audit)) + (if Fails(audit) then [] else Added(audit, [LoadedEvent(ExpLoadedMessage, path, wb[s])]))
  {
    var sel := SelectWorksheetWithColumns(wb, ExpRequired);
    if sel.Err? {
      return Err(sel.error);
    }
    var ws := wb[sel.value];
    var cols := ExpColumns(HeaderMap(ws.rows[0]));
    var w := Emit(audit, LoadedEvent(ExpLoadedMessage, path, ws));
    if w.Fail? {
      return Err(w.error);
    }
    r := LoadRows(ExpRowFn(sha256, path, cfg.monedaDefault, cols), BlankRow, ws.rows);
  }
}
