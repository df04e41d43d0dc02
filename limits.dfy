/** The fail-closed ingestion limits: a value over its maximum records one
    `ingestion_limit` audit event and raises ErrorIngestion, and a failing audit write
    never replaces that error. */
module Limits {
  import opened Common
  import opened PyStr
  import opened Json
  import opened Errors
  import opened AuditLog

  /** Where the limit is configured and which CLI flag overrides it. */
  datatype LimitHints = LimitHints(cfgPath: string, cliFlag: string)

  function FileSizeMessage(labelText: string, size: int, maxBytes: int, h: LimitHints): string {
    Concat([labelText, ": archivo excede limite de tamano: ", IntToString(size), " bytes > ",
            IntToString(maxBytes), " bytes. Override seguro: config `", h.cfgPath, "` o flag `",
            h.cliFlag, "`."])
  }

  function CounterMessage(labelText: string, name: string, value: int, maxValue: int, h: LimitHints): string {
    Concat([labelText, ": excede limite `", name, "`: ", IntToString(value), " > ",
            IntToString(maxValue), ". Override seguro: config `", h.cfgPath, "` o flag `",
            h.cliFlag, "`."])
  }

  function FileSizeDetails(size: int, maxBytes: int, h: LimitHints): map<string, JsonValue> {
    map["limit" := JStr("max_input_bytes"), "size_bytes" := JInt(size), "max_bytes" := JInt(maxBytes),
        "cfg_path" := JStr(h.cfgPath), "cli_flag" := JStr(h.cliFlag)]
  }

  function CounterDetails(name: string, value: int, maxValue: int, h: LimitHints): map<string, JsonValue> {
    map["limit" := JStr(name), "value" := JInt(value), "max_value" := JInt(maxValue),
        "cfg_path" := JStr(h.cfgPath), "cli_flag" := JStr(h.cliFlag)]
  }

  /** The event `_audit_and_raise` writes: the file name, then the limit's details. */
  function LimitEvent(path: string, details: map<string, JsonValue>): (e: AuditEvent)
    ensures e.tipo == "ingestion_limit" && e.mensaje == "Limite de ingesta excedido"
    ensures e.detalles.Keys == details.Keys + {"archivo"}
    ensures forall k | k in details :: e.detalles[k] == details[k]
    ensures "archivo" !in details ==> e.detalles["archivo"] == JStr(PathName(path))
  {
    AuditEvent("ingestion_limit", "Limite de ingesta excedido", map["archivo" := JStr(PathName(path))] + details)
  }

  function AuditFailureNote(e: Exc): string {
    "[audit] failed to write ingestion_limit event: " + Str(e) + "\n"
  }

  /** `_audit_and_raise`: try to record the event, report a failed write on stderr, and
      raise ErrorIngestion with the message in every case. */
  method AuditAndRaise(audit: AuditSink, path: string, message: string, details: map<string, JsonValue>)
    returns (err: Exc, stderr: string)
    modifies Footprint(audit)
    ensures err == Ingestion(message)
    ensures Fails(audit) ==> Logged(audit) == old(Logged(audit)) && stderr == AuditFailureNote(FailureOf(audit))
    ensures !Fails(audit) ==> Logged(audit) == old(Logged(audit)) + Added(audit, [LimitEvent(path, details)]) && stderr == ""
  {
    var w := Emit(audit, LimitEvent(path, details));
    stderr := if w.Fail? then AuditFailureNote(w.error) else "";
    err := Ingestion(message);
  }

  /** `enforce_file_size`; `size` is what `stat` reports for the file. */
  method EnforceFileSize(path: string, size: int, maxBytes: int, audit: AuditSink, h: LimitHints, labelText: string)
    returns (r: Outcome<Exc>, stderr: string)
    modifies Footprint(audit)
    ensures size <= maxBytes ==> r == Pass && stderr == "" && Logged(audit) == old(Logged(audit))
    ensures size > maxBytes ==> r == Fail(Ingestion(FileSizeMessage(labelText, size, maxBytes, h)))
    ensures size > maxBytes && Fails(audit) ==>
      Logged(audit) == old(Logged(audit)) && stderr == AuditFailureNote(FailureOf(audit))
    ensures size > maxBytes && !Fails(audit) ==>
      Logged(audit) == old(Logged(audit)) + Added(audit, [LimitEvent(path, FileSizeDetails(size, maxBytes, h))]) && stderr == ""
  {
    if size <= maxBytes {
      return Pass, "";
    }
    var err;
    err, stderr := AuditAndRaise(audit, path, FileSizeMessage(labelText, size, maxBytes, h), FileSizeDetails(size, maxBytes, h));
    r := Fail(err);
  }

  /** `enforce_counter` */
  method EnforceCounter(path: string, audit: AuditSink, name: string, value: int, maxValue: int, h: LimitHints, labelText: string)
    returns (r: Outcome<Exc>, stderr: string)
    modifies Footprint(audit)
    ensures value <= maxValue ==> r == Pass && stderr == "" && Logged(audit) == old(Logged(audit))
    ensures value > maxValue ==> r == Fail(Ingestion(CounterMessage(labelText, name, value, maxValue, h)))
    ensures value > maxValue && Fails(audit) ==>
      Logged(audit) == old(Logged(audit)) && stderr == AuditFailureNote(FailureOf(audit))
    ensures value > maxValue && !Fails(audit) ==>
      Logged(audit) == old(Logged(audit)) + Added(audit, [LimitEvent(path, CounterDetails(name, value, maxValue, h))]) && stderr == ""
  {
    if value <= maxValue {
      return Pass, "";
    }
    var err;
    err, stderr := AuditAndRaise(audit, path, CounterMessage(labelText, name, value, maxValue, h), CounterDetails(name, value, maxValue, h));
    r := Fail(err);
  }

  /** The size message names the size, the maximum, the config path and the flag. */
  lemma FileSizeMessageNames(labelText: string, size: int, maxBytes: int, h: LimitHints)
    ensures var m := FileSizeMessage(labelText, size, maxBytes, h);
      Contains(m, IntToString(size)) && Contains(m, IntToString(maxBytes))
      && Contains(m, h.cfgPath) && Contains(m, h.cliFlag)
  {
    var parts := [labelText, ": archivo excede limite de tamano: ", IntToString(size), " bytes > ",
                  IntToString(maxBytes), " bytes. Override seguro: config `", h.cfgPath, "` o flag `",
                  h.cliFlag, "`."];
    ContainsPart(parts, 2);
    ContainsPart(parts, 4);
    ContainsPart(parts, 6);
    ContainsPart(parts, 8);
  }

  /** The counter message names the limit, the value, the maximum, the config path and
      the flag. */
  lemma CounterMessageNames(labelText: string, name: string, value: int, maxValue: int, h: LimitHints)
    ensures var m := CounterMessage(labelText, name, value, maxValue, h);
      Contains(m, name) && Contains(m, IntToString(value)) && Contains(m, IntToString(maxValue))
      && Contains(m, h.cfgPath) && Contains(m, h.cliFlag)
  {
    var parts := [labelText, ": excede limite `", name, "`: ", IntToString(value), " > ",
                  IntToString(maxValue), ". Override seguro: config `", h.cfgPath, "` o flag `",
                  h.cliFlag, "`."];
    ContainsPart(parts, 2);
    ContainsPart(parts, 4);
    ContainsPart(parts, 6);
    ContainsPart(parts, 8);
    ContainsPart(parts, 10);
  }
}
