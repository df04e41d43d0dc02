/** The append-only JSONL audit log and the writer that discards events. */
module AuditLog {
  import opened Common
  import opened PyStr
  import opened Json
  import opened Errors

  datatype AuditEvent = AuditEvent(tipo: string, mensaje: string, detalles: map<string, JsonValue>)

  function EventObject(e: AuditEvent): map<string, JsonValue> {
    map["tipo" := JStr(e.tipo), "mensaje" := JStr(e.mensaje), "detalles" := JObj(e.detalles)]
  }

  /** The JSON text of one event, as `write` encodes it (ASCII, sorted keys, compact). */
  function EventJson(e: AuditEvent): (r: string)
    ensures AllPrintable(r)
    ensures forall j | 0 <= j < |r| :: !IsLineBreak(r[j])
  {
    EncodePrintable(JObj(EventObject(e)));
    Encode(JObj(EventObject(e)))
  }

  /** The encoded event is an object with exactly the keys `detalles`, `mensaje`, `tipo`,
      whose members are written in that order. */
  lemma EventJsonKeys(e: AuditEvent)
    ensures EventObject(e).Keys == {"detalles", "mensaje", "tipo"}
    ensures SortedKeys(EventObject(e).Keys) == ["detalles", "mensaje", "tipo"]
    ensures EventJson(e) == "{" + Join(ObjParts(EventObject(e)), ",") + "}"
  {
    var fields := EventObject(e);
    assert fields.Keys == {"detalles", "mensaje", "tipo"};
    SortedEventKeys(fields);
    EncodeObjIsJoin(fields);
  }

  lemma SortedEventKeys(fields: map<string, JsonValue>)
    requires fields.Keys == {"detalles", "mensaje", "tipo"}
    ensures SortedKeys(fields.Keys) == ["detalles", "mensaje", "tipo"]
  {
    KeyOrder();
    SortedThree("detalles", "mensaje", "tipo");
  }

  lemma KeyOrder()
    ensures StrLt("detalles", "mensaje") && StrLt("mensaje", "tipo")
  {
    assert "detalles"[0] < "mensaje"[0];
    assert "mensaje"[0] < "tipo"[0];
  }

  lemma SortedThree(a: string, b: string, c: string)
    requires StrLt(a, b) && StrLt(b, c)
    ensures SortedKeys({a, b, c}) == [a, b, c]
  {
    StrLtTransitive(a, b, c);
    StrLtIrreflexive(a);
    StrLtIrreflexive(b);
    StrLtAsymmetric(a, b);
    StrLtAsymmetric(b, c);
    StrLtAsymmetric(a, c);
    var r := SortedKeys({a, b, c});
    assert |{a, b, c}| == 3;
    assert a in r && b in r && c in r;
  }

  /** Text with no line break, one per line. */
  predicate AllLinesClean(lines: seq<string>) {
    forall k, j | 0 <= k < |lines| && 0 <= j < |lines[k]| :: !IsLineBreak(lines[k][j])
  }

  /** `JsonlAuditWriter`: appends one JSON line per event to its file. `lines` are the
      lines of the file, each written out followed by `"\n"`; `failure` is the OSError
      message opening the file for append raises, if it does. */
  class JsonlAuditWriter {
    var lines: seq<string>
    const failure: Option<string>

    /** The file `lines` stand for. */
    function Content(): string
      reads this
    {
      Concat(AppendNewline(lines))
    }

    /** Opening a writer keeps whatever the log already holds. */
    constructor (existing: seq<string>, failure: Option<string>)
      ensures lines == existing && this.failure == failure
    {
      lines := existing;
      this.failure := failure;
    }

    /** `write`: append the event's line, or raise the OSError and change nothing. */
    method Write(e: AuditEvent) returns (r: Outcome<Exc>)
      modifies this
      ensures failure.None? ==> r == Pass && lines == old(lines) + [EventJson(e)]
      ensures failure.Some? ==> r == Fail(OsError(failure.value)) && lines == old(lines)
      ensures Content() == old(Content()) + (if failure.None? then EventJson(e) + "\n" else "")
    {
      if failure.Some? {
        return Fail(OsError(failure.value));
      }
      ConcatAppendNewline(lines, EventJson(e));
      lines := lines + [EventJson(e)];
      r := Pass;
    }
  }

  lemma ConcatAppendNewline(lines: seq<string>, last: string)
    ensures Concat(AppendNewline(lines + [last])) == Concat(AppendNewline(lines)) + last + "\n"
  {
    assert AppendNewline(lines + [last]) == AppendNewline(lines) + [last + "\n"];
    ConcatAppend(AppendNewline(lines), last + "\n");
  }

  /** A log that `write` alone produced is read back line by line as the events it was
      given, one line per event, in order. */
  lemma LinesRoundTrip(events: seq<AuditEvent>)
    ensures var lines := seq(|events|, i requires 0 <= i < |events| => EventJson(events[i]));
      SplitLines(Concat(AppendNewline(lines))) == lines
  {
    var lines := seq(|events|, i requires 0 <= i < |events| => EventJson(events[i]));
    assert AllLinesClean(lines);
    SplitLinesOfNewlineTerminated(lines);
  }

  /** `NullAuditWriter`: holds nothing and discards every event. */
  class NullAuditWriter {
    constructor () {}

    method Write(e: AuditEvent) returns (r: Outcome<Exc>)
      ensures r == Pass
    {
      r := Pass;
    }
  }

  /** The writer a loader is handed: either kind. */
  datatype AuditSink = ToJsonl(w: JsonlAuditWriter) | ToNull(n: NullAuditWriter)

  function Footprint(s: AuditSink): set<object> {
    if s.ToJsonl? then {s.w} else {}
  }

  /** The lines a sink has recorded (none for the null writer). */
  function Logged(s: AuditSink): seq<string>
    reads Footprint(s)
  {
    if s.ToJsonl? then s.w.lines else []
  }

  /** Whether a write to the sink raises. */
  predicate Fails(s: AuditSink) {
    s.ToJsonl? && s.w.failure.Some?
  }

  function FailureOf(s: AuditSink): Exc
    requires Fails(s)
  {
    OsError(s.w.failure.value)
  }

  /** The audit failure a sink raises, if it does. */
  function AuditFailure(s: AuditSink): (r: Option<Exc>)
    ensures r.Some? <==> Fails(s)
  {
    if Fails(s) then Some(FailureOf(s)) else None
  }

  /** What one successful write adds to the sink's lines. */
  function Added(s: AuditSink, events: seq<AuditEvent>): seq<string> {
    if s.ToJsonl? then EachLine(events, EventJson) else []
  }

  /** One line per event, in order. */
  function EachLine(events: seq<AuditEvent>, line: AuditEvent -> string): (r: seq<string>)
    ensures |r| == |events| && forall i | 0 <= i < |events| :: r[i] == line(events[i])
  {
    seq(|events|, i requires 0 <= i < |events| => line(events[i]))
  }

  /** Two successful writes add the lines of both, in order. */
  lemma AddedAppend(s: AuditSink, a: seq<AuditEvent>, b: seq<AuditEvent>)
    ensures Added(s, a) + Added(s, b) == Added(s, a + b)
  {
    if s.ToJsonl? {
      EachLineAppend(a, b, EventJson);
    }
  }

  lemma EachLineAppend(a: seq<AuditEvent>, b: seq<AuditEvent>, line: AuditEvent -> string)
    ensures EachLine(a, line) + EachLine(b, line) == EachLine(a + b, line)
  {
    var l, r, ab := EachLine(a, line), EachLine(b, line), EachLine(a + b, line);
    forall i | 0 <= i < |ab|
      ensures (l + r)[i] == ab[i]
    {
      if i < |a| {
        assert (a + b)[i] == a[i];
      } else {
        assert (a + b)[i] == b[i - |a|];
      }
    }
  }

  /** `audit.write(e)` on whichever writer the sink is. */
  method Emit(s: AuditSink, e: AuditEvent) returns (r: Outcome<Exc>)
    modifies Footprint(s)
    ensures Fails(s) ==> r == Fail(FailureOf(s)) && Logged(s) == old(Logged(s))
    ensures !Fails(s) ==> r == Pass && Logged(s) == old(Logged(s)) + Added(s, [e])
  {
    if s.ToJsonl? {
      r := s.w.Write(e);
    } else {
      r := s.n.Write(e);
    }
  }
}
