/** JSON-like element data as the Python code sees it: values, records,
    the exceptions that the code raises, and the few Python operators the
    core applies to values (`d[k]`, `k in v`, truthiness, f-string display). */
module Json {

  /** The three Python collection types that `Element.__getitem__` recognises. */
  datatype CollKind = ListKind | TupleKind | SetKind

  /** A value stored in an element record. `Obj` is a Python dict with
      string keys; `Coll` a list, tuple or set (kept in iteration order). */
  datatype Value =
    | Null
    | Bool(b: bool)
    | Num(n: int)
    | Str(s: string)
    | Obj(fields: map<string, Value>)
    | Coll(kind: CollKind, items: seq<Value>)

  /** An element record: the dict under `Element.data`. */
  type Record = map<string, Value>

  /** The Python exceptions the core can raise, by class. `GraphError` is
      networkx's error for an unknown node; `Unsupported` marks values the
      model does not render (see README). */
  datatype Error =
    | KeyError
    | TypeError
    | IndexError
    | AttributeError
    | AssertionError
    | ValueError
    | NotImplementedError
    | GraphError
    | Unsupported

  datatype Option<+T> = None | Some(value: T)

  /** A value or the exception raised instead of returning it. */
  datatype Result<+T> = Success(value: T) | Failure(error: Error) {
    predicate IsFailure() { Failure? }
    function PropagateFailure<U>(): Result<U>
      requires Failure?
    {
      Failure(error)
    }
    function Extract(): T
      requires Success?
    {
      value
    }
  }

  /** The outcome of a Python call made for its side effect. */
  datatype Outcome = Pass | Fail(error: Error)

  /** Whether a value can key a Python dict or be tested with `in` against
      one: a dict, list or set cannot, and a tuple only when its members can. */
  predicate Hashable(v: Value) {
    match v
    case Obj(_) => false
    case Coll(kind, xs) => kind == TupleKind && forall i :: 0 <= i < |xs| ==> Hashable(xs[i])
    case _ => true
  }

  /** The reference object `{"@id": id}`. */
  function Ref(id: Value): Value {
    Obj(map["@id" := id])
  }

  /** `rec.get(key)`, with absence made explicit. */
  function Slot(rec: Record, key: string): Option<Value> {
    if key in rec then Some(rec[key]) else None
  }

  /** `rec[key]` on a record. */
  function Lookup(rec: Record, key: string): (r: Result<Value>)
    ensures r.Success? <==> key in rec
    ensures r.Success? ==> r.value == rec[key]
    ensures r.Failure? ==> r.error == KeyError
  {
    if key in rec then Success(rec[key]) else Failure(KeyError)
  }

  /** `v[key]` for a string `key` on an arbitrary value: only a dict can be
      indexed by a string; a string, list or tuple raises `TypeError`
      (indices must be integers), and so do numbers, booleans and None. */
  function Subscript(v: Value, key: string): (r: Result<Value>)
    ensures r.Success? <==> v.Obj? && key in v.fields
    ensures r.Success? ==> r.value == v.fields[key]
    ensures r.Failure? && v.Obj? ==> r.error == KeyError
    ensures !v.Obj? ==> r == Failure(TypeError)
  {
    match v
    case Obj(f) => if key in f then Success(f[key]) else Failure(KeyError)
    case _ => Failure(TypeError)
  }

  /** `needle` occurs as a contiguous piece of `s`. */
  predicate IsSubstring(needle: string, s: string)
    decreases |s|
  {
    |needle| <= |s| && (s[..|needle|] == needle || IsSubstring(needle, s[1..]))
  }

  /** Python's `key in v`: dict keys, substring of a string, member of a
      collection; numbers, booleans and None are not iterable. */
  function Contains(v: Value, key: string): (r: Result<bool>)
    ensures v.Obj? ==> r == Success(key in v.fields)
    ensures v.Coll? ==> r == Success(Str(key) in v.items)
    ensures (v.Null? || v.Bool? || v.Num?) ==> r == Failure(TypeError)
  {
    match v
    case Obj(f) => Success(key in f)
    case Str(s) => Success(IsSubstring(key, s))
    case Coll(_, xs) => Success(Str(key) in xs)
    case _ => Failure(TypeError)
  }

  /** Python truthiness. */
  predicate Truthy(v: Value) {
    match v
    case Null => false
    case Bool(b) => b
    case Num(n) => n != 0
    case Str(s) => s != ""
    case Obj(f) => |f| > 0
    case Coll(_, xs) => |xs| > 0
  }

  /** How an f-string renders a value. Only strings are rendered; every
      other value is reported as `Unsupported`. */
  function Display(v: Value): (r: Result<string>)
    ensures r.Success? <==> v.Str?
    ensures v.Str? ==> r.value == v.s
  {
    match v
    case Str(s) => Success(s)
    case _ => Failure(Unsupported)
  }
}
