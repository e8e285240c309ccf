/** The Python values the service handles: field values of stored records and
    request bodies, the exceptions it can raise, and a result type for them. */
module PyValues {

  /** A field value: a string, a float, or a value of some other type that has no string
      methods (`None`, a number, a list, a dictionary), known by its Python type name. The name
      in `Other` is never `str` or `float`; `bytes` and `bytearray`, which do have `lower` and
      `strip`, are not among the values modelled. Every value is taken to be encodable as JSON. */
  datatype Value = Str(s: string) | Float(x: real) | Other(typeName: string)

  /** A document as a dictionary of fields (`to_dict()` of a stored complaint). */
  type Record = map<string, Value>

  /** The exceptions this core can raise. */
  datatype PyError =
    | KeyError(key: string)
    | AttributeError(typeName: string, attribute: string)

  datatype Option<T> = None | Some(value: T)

  datatype Result<T, E> = Success(value: T) | Failure(error: E)

  function TypeName(v: Value): string {
    match v
    case Str(_) => "str"
    case Float(_) => "float"
    case Other(name) => name
  }

  function Quoted(s: string): string {
    "'" + s + "'"
  }

  /** `str(e)` for the exceptions of `PyError`. */
  function ErrorString(e: PyError): string {
    match e
    case KeyError(key) => Quoted(key)
    case AttributeError(typeName, attribute) =>
      Quoted(typeName) + " object has no attribute " + Quoted(attribute)
  }

  /** `getattr(v, attribute)` for a string method such as `lower` or `strip`: a string has it,
      and a value of the other modelled types, none of which has string methods, raises
      `AttributeError`. */
  function AsString(v: Value, attribute: string): Result<string, PyError> {
    match v
    case Str(s) => Success(s)
    case _ => Failure(AttributeError(TypeName(v), attribute))
  }
}
