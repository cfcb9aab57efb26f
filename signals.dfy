/** Signals and the values they carry, as the blocks see them.

    A signal is a dictionary from attribute names to values. Values are
    the Python objects the blocks pass around: None, booleans, integers,
    strings, lists, dictionaries, or anything else (opaque). Property
    expressions (`self.x(signal)`) are evaluated by the framework; here they
    are functions from a signal to a value that may fail. */
module Signals {

  datatype Value =
    | VNone
    | VBool(b: bool)
    | VInt(i: int)
    | VStr(s: string)
    | VList(items: seq<Value>)
    | VDict(entries: map<string, Value>)
    | VOther(tag: string)

  /** Python truthiness: None, False, 0 and empty containers are false;
      other objects are true. */
  predicate Truthy(v: Value)
  {
    match v
    case VNone => false
    case VBool(b) => b
    case VInt(i) => i != 0
    case VStr(s) => s != ""
    case VList(items) => items != []
    case VDict(entries) => entries != map[]
    case VOther(_) => true
  }

  type Signal = map<string, Value>

  /** Attribute names starting with `_`: hidden attributes, which
      `to_dict` leaves out unless asked to include them. */
  predicate Hidden(key: string)
  {
    |key| > 0 && key[0] == '_'
  }

  /** `signal.to_dict()`: the signal without its hidden attributes. */
  function ToDict(s: Signal): Signal
  {
    map k | k in s && !Hidden(k) :: s[k]
  }

  /** A signal without hidden attributes is its own dictionary. */
  lemma ToDictPlain(s: Signal)
    requires forall k :: k in s ==> !Hidden(k)
    ensures ToDict(s) == s
  {
  }

  /** The outcome of evaluating a property expression: a value, or an
      exception. */
  datatype Eval<T> = Val(value: T) | Fails

  datatype Option<T> = None | Some(value: T)

  /** A property expression evaluated against a signal. */
  type Expr = Signal -> Eval<Value>

  /** One `notify_signals` call: the signals, and the output id (none for
      the default output). */
  datatype Notification = Notify(signals: seq<Signal>, outputId: Option<string>)
}
