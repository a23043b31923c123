/**
 * A leaf's condition: the rule name and the polymorphic value that the
 * JSON payload carries (condition.go).
 */
module Condition {

  /** A decoded JSON value as Go's `interface{}` sees it here: nil, a number,
      a string, or an object of which only the `start` and `end` entries are
      ever read. A missing entry reads as `Null`, exactly like an explicit null. */
  datatype Value = Null | Num(n: int) | Str(s: string) | Obj(start: Value, end: Value)

  /** Rebuilds the value from the list `GetValues` produced: two entries can
      only come from an object, one entry is the value itself. */
  function FromValues(vs: seq<Value>): Value
    requires 1 <= |vs| <= 2
  {
    if |vs| == 2 then Obj(vs[0], vs[1]) else vs[0]
  }

  /** Normalises a value into the bind list of a leaf: an object yields its
      `start` and `end` slots in that order, anything else (nil included)
      yields itself alone. */
  function GetValues(v: Value): (r: seq<Value>)
    ensures 1 <= |r| <= 2
    ensures |r| == 2 <==> v.Obj?
    ensures v.Obj? ==> r[0] == v.start && r[1] == v.end
    ensures FromValues(r) == v
  {
    match v
    case Obj(start, end) => [start, end]
    case _ => [v]
  }

  /** The rule name (`"equal"`, `"between"`, a custom name, or `""` for none)
      and the value the rule compares against. */
  datatype Condition = Condition(rule: string, value: Value) {

    /** The bind list of this condition: the same list `GetValues` gives
        for its value. */
    function Values(): (r: seq<Value>)
      ensures r == GetValues(value)
    {
      GetValues(value)
    }
  }
}
