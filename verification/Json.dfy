/** Payload values with the dictionary and truth conventions the engines rely on, and what JSON makes of them. */
module Json {
  /** A foreign value is one JSON has no form for and writes as another value: a date as its text, a tuple as an array.
      Its truth and hashability are its own. */
  datatype Value =
    | Null
    | Bool(b: bool)
    | Num(n: int)
    | Str(s: string)
    | Arr(items: seq<Value>)
    | Obj(fields: map<string, Value>)
    | Foreign(written: Value, truthy: bool, hashable: bool)

  type Payload = map<string, Value>

  /** `d.get(k, default)` */
  function GetOr(d: Payload, k: string, default: Value): Value {
    if k in d then d[k] else default
  }

  /** `d.get(k)` */
  function Get(d: Payload, k: string): Value {
    GetOr(d, k, Null)
  }

  predicate Truthy(v: Value) {
    match v
    case Null => false
    case Bool(b) => b
    case Num(n) => n != 0
    case Str(s) => s != ""
    case Arr(items) => items != []
    case Obj(fields) => fields != map[]
    case Foreign(_, truthy, _) => truthy
  }

  /** `a or b` */
  function Or(a: Value, b: Value): Value {
    if Truthy(a) then a else b
  }

  /** Lists and dictionaries cannot be dictionary keys. */
  predicate Hashable(v: Value) {
    match v
    case Arr(_) => false
    case Obj(_) => false
    case Foreign(_, _, hashable) => hashable
    case _ => true
  }

  /** False are exactly null, false, zero, the empty text, list and dictionary, and whatever foreign value says so. */
  lemma FalseValues(v: Value)
    ensures !Truthy(v) <==>
              v == Null || v == Bool(false) || v == Num(0) || v == Str("") || v == Arr([]) || v == Obj(map[])
              || (v.Foreign? && !v.truthy)
    ensures !Hashable(v) <==> v.Arr? || v.Obj? || (v.Foreign? && !v.hashable)
  {
  }

  // ---- Writing as JSON ----

  /** No foreign value occurs in it. */
  predicate JsonOnly(v: Value) {
    match v
    case Arr(items) => forall i :: 0 <= i < |items| ==> JsonOnly(items[i])
    case Obj(fields) => forall k :: k in fields ==> JsonOnly(fields[k])
    case Foreign(_, _, _) => false
    case _ => true
  }

  /** The value as JSON writes it: every foreign value is replaced by what it is written as. */
  function Written(v: Value): Value {
    match v
    case Arr(items) => Arr(seq(|items|, i requires 0 <= i < |items| => Written(items[i])))
    case Obj(fields) => Obj(map k | k in fields :: Written(fields[k]))
    case Foreign(written, _, _) => Written(written)
    case _ => v
  }

  /** What is written is JSON. */
  lemma {:induction false} WrittenIsJson(v: Value)
    ensures JsonOnly(Written(v))
  {
    match v {
      case Arr(items) =>
        forall i | 0 <= i < |items| ensures JsonOnly(Written(items[i])) {
          WrittenIsJson(items[i]);
        }
      case Obj(fields) =>
        forall k | k in fields ensures JsonOnly(Written(fields[k])) {
          WrittenIsJson(fields[k]);
        }
      case Foreign(written, _, _) => WrittenIsJson(written);
      case _ =>
    }
  }

  lemma {:induction false} JsonIsWrittenAsItself(v: Value)
    requires JsonOnly(v)
    ensures Written(v) == v
  {
    match v {
      case Arr(items) =>
        forall i | 0 <= i < |items| ensures Written(items[i]) == items[i] {
          JsonIsWrittenAsItself(items[i]);
        }
      case Obj(fields) =>
        forall k | k in fields ensures Written(fields[k]) == fields[k] {
          JsonIsWrittenAsItself(fields[k]);
        }
      case _ =>
    }
  }

  /** Writing changes exactly the values a foreign one occurs in. */
  lemma WrittenAsItselfIff(v: Value)
    ensures Written(v) == v <==> JsonOnly(v)
  {
    WrittenIsJson(v);
    if JsonOnly(v) {
      JsonIsWrittenAsItself(v);
    }
  }
}
