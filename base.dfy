/** Values, errors and the external collaborators shared by every part of the content model.

    Python's dynamically typed attribute and settings values are modelled by the closed
    datatype `Value`; an exception is a `Failure` carrying an `Error`. */
module Base {

  datatype Option<+T> = None | Some(value: T)

  /** The outcome of an operation that the source may abort with an exception. */
  datatype Result<+T, +E> = Success(value: T) | Failure(error: E) {
    predicate IsFailure() { Failure? }

    function PropagateFailure<U>(): Result<U, E>
      requires Failure?
    {
      Failure(error)
    }

    function Extract(): T
      requires Success?
    {
      value
    }
  }

  /** A check that passes or fails with an error, like `check_properties`. */
  datatype Outcome<+E> = Pass | Fail(error: E)

  /** The Python exceptions the modelled code can raise. */
  datatype Error =
    | KeyError(key: string)          // a missing dictionary key
    | AttributeError(name: string)   // a missing attribute, or one that cannot be set
    | TypeError                      // an operation applied to a value of the wrong type
    | ValueError                     // a malformed format string or dict() argument
    | IndexError                     // a tuple too short
    | NameError(name: string)        // raised by check_properties with the missing property

  /** The three subclasses of URLWrapper. */
  datatype WrapperKind = CategoryKind | TagKind | AuthorKind

  /** A Python value as found in metadata, settings and attributes. */
  datatype Value =
    | Str(s: string)
    | Int(i: int)
    | Bool(b: bool)
    | Null
    | Date(instant: int)              // a datetime, as a point on a time line
    | Tuple(items: seq<Value>)
    | Dict(entries: map<string, Value>)
    | Wrapper(w: UrlWrapper)          // a Category, Tag or Author object

  /** A URLWrapper object: its name, its slug and the settings it reads its urls from. */
  datatype UrlWrapper = UrlWrapper(kind: WrapperKind, name: string, slug: string, settings: map<string, Value>)

  /** Collaborators whose code is not part of this model, passed in as total functions. */
  datatype Env = Env(
    slugify: string -> string,              // pelican.utils.slugify
    truncateHtmlWords: (string, Value) -> string, // pelican.utils.truncate_html_words
    strftime: (int, string) -> string,      // datetime.strftime under the active locale
    show: Value -> string,                  // unicode() of a value that is neither text nor a wrapper
    defaultConfig: map<string, Value>,      // pelican.settings._DEFAULT_CONFIG
    cwd: string)                            // os.getcwd()

  /** Python truthiness. */
  predicate Truthy(v: Value) {
    match v
    case Str(s) => s != []
    case Int(i) => i != 0
    case Bool(b) => b
    case Null => false
    case Date(_) => true
    case Tuple(items) => items != []
    case Dict(entries) => entries != map[]
    case Wrapper(_) => true   // URLWrapper defines neither __len__ nor __nonzero__
  }

  /** `unicode(v)`: text is itself, a URLWrapper renders as its name. */
  function Text(v: Value, env: Env): string {
    match v
    case Str(s) => s
    case Wrapper(w) => w.name
    case _ => env.show(v)
  }

  /** Whether `hash(v)` succeeds: a dict is unhashable, and so is a tuple that holds one. */
  predicate Hashable(v: Value) {
    match v
    case Dict(_) => false
    case Tuple(items) => forall i :: 0 <= i < |items| ==> Hashable(items[i])
    case _ => true
  }

  /** `getattr(obj, name, default)` over an attribute map. */
  function GetAttr(attrs: map<string, Value>, name: string, default: Value): Value {
    if name in attrs then attrs[name] else default
  }

  /** `settings or copy.deepcopy(_DEFAULT_CONFIG)`: an empty settings mapping means the defaults. */
  function EffectiveSettings(settings: map<string, Value>, env: Env): map<string, Value> {
    if settings == map[] then env.defaultConfig else settings
  }
}
