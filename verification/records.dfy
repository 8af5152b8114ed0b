/**
 Plain JavaScript objects as the client sees them: string keys mapped to JSON
 scalar values. Used for the session user and the channel in the store.
 */
module Records {
  import opened Outcomes
  import Text

  datatype Value = Null | Bool(b: bool) | Str(s: string) | Num(n: int)

  type Record = map<string, Value>

  /** JavaScript truthiness of a field value (`undefined` is `None`). */
  predicate FieldTruthy(v: Option<Value>) {
    match v
    case None => false
    case Some(Null) => false
    case Some(Bool(b)) => b
    case Some(Str(s)) => s != ""
    case Some(Num(n)) => n != 0
  }

  /** `obj?.key`: `None` when the object is null or lacks the key. */
  function Get(obj: Option<Record>, key: string): (r: Option<Value>)
    ensures r.Some? <==> obj.Some? && key in obj.value
    ensures r.Some? ==> r.value == obj.value[key]
  {
    if obj.Some? && key in obj.value then Some(obj.value[key]) else None
  }

  /** The keys and values `...obj` contributes: none for `null`. */
  function Spread(obj: Option<Record>): Record {
    if obj.None? then map[] else obj.value
  }

  /** `{ ...base, ...patch }`: later keys win, and the result is an object even
      when both operands are `null`. */
  function Merge(base: Option<Record>, patch: Option<Record>): (r: Record)
    ensures r.Keys == Spread(base).Keys + Spread(patch).Keys
    ensures forall k :: k in Spread(patch) ==> r[k] == Spread(patch)[k]
    ensures forall k :: k in Spread(base) && k !in Spread(patch) ==> r[k] == Spread(base)[k]
  {
    Spread(base) + Spread(patch)
  }

  /** Merging nothing into an object returns that object. */
  lemma MergeEmpty(base: Record)
    ensures Merge(Some(base), Some(map[])) == base
    ensures Merge(Some(base), None) == base
  {
  }

  /** `${v}` inside a template literal, for a field read with `?.`. */
  function TemplateText(v: Option<Value>): string {
    match v
    case None => "undefined"
    case Some(Null) => "null"
    case Some(Bool(b)) => if b then "true" else "false"
    case Some(Str(s)) => s
    case Some(Num(n)) => if n < 0 then "-" + Text.NatToDecimal(-n) else Text.NatToDecimal(n)
  }
}
