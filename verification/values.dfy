/** Values the request handlers work with: optional values, request-body values
    with JavaScript truthiness, document ids and byte strings. */
module Values {

  datatype Option<+T> = None | Some(value: T)

  datatype Result<+T, +E> = Ok(value: T) | Err(error: E)

  /** A member of a parsed JSON request body. `Undefined` is a member that is not
      there; `Composite` is any array or object, identified by its JSON text.
      Numbers are integral here. */
  datatype Json =
    | Undefined
    | Null
    | Bool(b: bool)
    | Num(n: int)
    | Str(s: string)
    | Composite(text: string)

  /** JavaScript truthiness: undefined, null, false, 0 and "" are falsy. */
  predicate Truthy(v: Json)
  {
    match v
    case Undefined => false
    case Null => false
    case Bool(b) => b
    case Num(n) => n != 0
    case Str(s) => s != ""
    case Composite(_) => true
  }

  /** Truthiness of a request header: a header that is absent or empty is falsy. */
  predicate Present(header: Option<string>)
  {
    header.Some? && header.value != ""
  }

  /** A password digest, as the hashing primitive renders it. */
  type Digest = string

  type Bytes = seq<bv8>

  /** A document-store object id. */
  datatype ObjectId = ObjectId(hex: string)
}
