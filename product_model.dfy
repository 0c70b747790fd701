/** The records of the product catalog, as the server holds them after JSON decoding,
    and the outcomes of the catalog operations. */
module ProductModel {

  /** A JSON/JavaScript value as it arrives in a request body or sits in the catalog file.
      `Undefined` stands for a key that is absent; `Obj` stands for any object or array,
      whose contents the catalog never inspects. Numbers are reals; `NaN` is kept apart
      because it is the one falsy number other than zero. */
  datatype Value = Undefined | Null | Bool(b: bool) | Num(x: real) | NaN | Str(s: string) | Obj

  /** The six falsy values of JavaScript. */
  const FALSY: set<Value> := {Undefined, Null, Bool(false), Num(0.0), NaN, Str("")}

  /** JavaScript truthiness (ToBoolean), which the presence check `!name || !price || ...` uses:
      a value is truthy exactly when it is none of the six falsy values. */
  predicate Truthy(v: Value): (r: bool)
    ensures r <==> v !in FALSY
  {
    match v
    case Undefined => false
    case Null => false
    case Bool(b) => b
    case Num(x) => x != 0.0
    case NaN => false
    case Str(s) => s != ""
    case Obj => true
  }

  /** One catalog record: the five known keys and whatever other keys the record carries. */
  datatype Product = Product(id: Value, name: Value, price: Value, category: Value,
                             description: Value, extra: map<string, Value>)

  /** The keys a record holds in its own fields rather than in `extra`. */
  const KNOWN_KEYS: set<string> := {"id", "name", "price", "category", "description"}

  /** A record as JSON decoding produces it: an object holds each key once, so no known key
      appears again among the other keys. */
  ghost predicate WellFormed(p: Product) {
    p.extra.Keys !! KNOWN_KEYS
  }

  /** The four fields a create or update request destructures from its body. */
  datatype Fields = Fields(name: Value, price: Value, category: Value, description: Value)

  /** The four request fields a record carries. */
  function FieldsOf(p: Product): Fields {
    Fields(p.name, p.price, p.category, p.description)
  }

  /** The presence check of create and update: every field must be truthy, so the request is
      rejected exactly when some field is missing, null, false, zero, NaN or the empty string. */
  predicate Complete(f: Fields): (r: bool)
    ensures r <==> f.name !in FALSY && f.price !in FALSY && f.category !in FALSY &&
                   f.description !in FALSY
  {
    Truthy(f.name) && Truthy(f.price) && Truthy(f.category) && Truthy(f.description)
  }

  /** The record a create request builds, its id being the stringified clock reading. */
  function NewProduct(id: string, f: Fields): (p: Product)
    ensures p.id == Str(id) && FieldsOf(p) == f && p.extra == map[]
    ensures WellFormed(p)
  {
    Product(Str(id), f.name, f.price, f.category, f.description, map[])
  }

  /** The object spread `{ ...p, name, price, category, description }`. */
  function Merge(p: Product, f: Fields): (q: Product)
    ensures FieldsOf(q) == f
    ensures q.id == p.id && q.extra == p.extra
    ensures WellFormed(p) ==> WellFormed(q)
  {
    p.(name := f.name, price := f.price, category := f.category, description := f.description)
  }

  /** What `Array.prototype.find` yields: a record, or `undefined`. */
  datatype Option<T> = None | Some(value: T)

  /** The outcome of a catalog operation, one constructor per response kind:
      success (200/201), 400, 404, and 500 for a failed file read, parse or write. */
  datatype Result<T> = Ok(value: T) | ValidationError | NotFound | StorageError
}
