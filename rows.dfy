/** A row of the traffic report as the clients receive it: a JSON object whose
    values are strings (or null when the CSV line was short), in key order.
    The lookups below give JavaScript's view of a property: missing, null or
    a string. */
module Rows {
  import opened Common

  datatype Entry = Entry(key: string, value: Option<string>)

  type Row = seq<Entry>

  /** What `row[key]` evaluates to in JavaScript. */
  datatype Field = Missing | Null | Text(s: string)

  /** Property lookup; JSON objects have distinct keys, so the first entry is the one. */
  function Get(row: Row, key: string): (f: Field)
    ensures f != Missing <==> exists i :: 0 <= i < |row| && row[i].key == key
  {
    if row == [] then Missing
    else if row[0].key == key then (if row[0].value.Some? then Text(row[0].value.value) else Null)
    else Get(row[1..], key)
  }

  /** JavaScript truthiness of a field: a non-empty string. */
  predicate Truthy(f: Field) {
    f.Text? && f.s != ""
  }

  /** `${f}` in a template literal. */
  function Template(f: Field): string {
    match f
    case Missing => "undefined"
    case Null => "null"
    case Text(s) => s
  }

  /** `f || fallback`. */
  function OrElse(f: Field, fallback: string): (r: string)
    ensures Truthy(f) ==> r == f.s
    ensures !Truthy(f) ==> r == fallback
  {
    if Truthy(f) then f.s else fallback
  }

  /** `f?.toLowerCase()` (undefined stays undefined). */
  function LowerField(f: Field): (g: Field)
    ensures Truthy(g) <==> Truthy(f)
  {
    if f.Text? then Text(Lower(f.s)) else Missing
  }

  /** `f?.toUpperCase()`. */
  function UpperField(f: Field): (g: Field)
    ensures Truthy(g) <==> Truthy(f)
  {
    if f.Text? then Text(Upper(f.s)) else Missing
  }

  /** `Object.keys(row)`. */
  function Keys(row: Row): (ks: seq<string>)
    ensures |ks| == |row|
    ensures forall i :: 0 <= i < |row| ==> ks[i] == row[i].key
  {
    if row == [] then [] else [row[0].key] + Keys(row[1..])
  }

  /** `Object.values(row)` as `Array.join` renders them: null becomes "". */
  function JoinedValues(row: Row): (vs: seq<string>)
    ensures |vs| == |row|
    ensures forall i :: 0 <= i < |row| ==> vs[i] == (if row[i].value.Some? then row[i].value.value else "")
  {
    if row == [] then []
    else [if row[0].value.Some? then row[0].value.value else ""] + JoinedValues(row[1..])
  }
}
