/**
 * The JavaScript values an issue record carries, how JavaScript judges them
 * in a condition, and the text `String(v)` (a template literal, or a value
 * used as a property name) gives for them.
 */
module Values {
  import opened Wrappers
  import opened Decimal

  /**
   * A field value: a string, an integral number, a boolean, null, or an
   * object (an array, a plain object or a Date) together with the text its
   * string conversion yields.
   */
  datatype Value = Str(text: string) | Num(number: int) | Bool(flag: bool) | Null | Obj(shown: string)

  /** A JSON-like record: field name to value; an absent name reads as `undefined`. */
  type Record = map<string, Value>

  /** `record[field]`, with `None` for `undefined`. */
  function Get(record: Record, field: string): Option<Value> {
    if field in record then Some(record[field]) else None
  }

  /** JavaScript truthiness; `undefined` (None) is falsy and every object is truthy. */
  predicate Truthy(v: Option<Value>) {
    match v
    case None => false
    case Some(Str(t)) => t != ""
    case Some(Num(n)) => n != 0
    case Some(Bool(b)) => b
    case Some(Null) => false
    case Some(Obj(_)) => true
  }

  /** `String(v)` for an optional value. */
  function ToText(v: Option<Value>): string {
    match v
    case None => "undefined"
    case Some(Str(t)) => t
    case Some(Num(n)) => IntToString(n)
    case Some(Bool(b)) => if b then "true" else "false"
    case Some(Null) => "null"
    case Some(Obj(shown)) => shown
  }

  /** A falsy value is absent, empty, zero, false or null, and nothing else. */
  lemma FalsyValues(v: Option<Value>)
    ensures !Truthy(v) <==> v in {None, Some(Str("")), Some(Num(0)), Some(Bool(false)), Some(Null)}
  {
  }
}
