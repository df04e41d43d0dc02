/** The exceptions the core raises and classifies: the `ErrorConciliador` family with its
    details and hint, `ErrorIngestion` (a ValueError), OSError, pydantic's ValidationError
    when a record cannot be built, and any other exception. */
module Errors {
  import opened Common
  import opened PyStr
  import opened Json
  import Models

  /** Which class of the `ErrorConciliador` family: the base class itself or one of its
      four subclasses. */
  datatype ConcKind = Base | EntradaUsuario | Configuracion | Contrato | OperacionIO

  datatype Exc =
    | Conciliador(kind: ConcKind, message: string, details: map<string, JsonValue>, hint: Option<string>)
    | Ingestion(message: string)
    | OsError(message: string)
    | Validation(error: Models.ValidationError)
    | Other(typeName: string, message: string)

  /** `str(exc)`: the message the exception was raised with. For a ValidationError only
      the part naming what failed is kept: the failing fields, or the validator's
      message after pydantic's `Value error, ` prefix. */
  function Str(e: Exc): (r: string)
    ensures !e.Validation? ==> r == e.message
    ensures e.Validation? && e.error.ValidatorFailed? ==> StartsWith(r, "Value error, ") && EndsWith(r, e.error.message)
  {
    match e
    case Validation(FieldsInvalid(fields)) => Join(fields, ", ")
    case Validation(ValidatorFailed(m)) => "Value error, " + m
    case _ => e.message
  }

  /** The text of a field error names every field that failed. */
  lemma StrNamesEveryField(fields: seq<string>, k: nat)
    requires k < |fields|
    ensures Contains(Str(Validation(Models.FieldsInvalid(fields))), fields[k])
  {
    var a, b := JoinAround(fields, ", ", k);
    ContainsMiddle(a, fields[k], b);
  }
}
