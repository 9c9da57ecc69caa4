/**
  The JavaScript values the program reads from the backend (parsed JSON and
  the objects built from it), the language rules it relies on (truthiness,
  `||`, property reads, `String(v)`, `new Date(v)`), and the host library
  behaviour it calls but that is not part of this model, gathered in `Host`.
*/
module Js {
  import opened Wrappers
  import opened Dictionaries
  import Text

  datatype Value =
    | Undefined
    | Null
    | Bool(b: bool)
    | Num(n: real)
    | Str(s: string)
    | Arr(elems: seq<Value>)
    | Obj(fields: Dict<Value>)

  /**
    Library behaviour taken as given: `Date.parse` (`None` for an invalid
    date), `Date.prototype.toISOString`, `String(n)` for a number,
    `String.prototype.localeCompare`, `Number.prototype.toLocaleString`,
    the `formatCurrency` helper of the configuration module, and `JSON.parse`
    (`None` where it throws).
  */
  datatype Host = Host(
    parseDate: string -> Option<int>,
    isoString: int -> string,
    numberToString: real -> string,
    localeCompare: (string, string) -> int,
    toLocaleString: real -> string,
    formatCurrency: (real, string) -> string,
    parseJson: string -> Option<Value>)

  /** `v === null || v === undefined`. */
  predicate IsNullish(v: Value)
  {
    v.Undefined? || v.Null?
  }

  /** `Boolean(v)`. */
  predicate Truthy(v: Value)
  {
    match v
    case Undefined => false
    case Null => false
    case Bool(b) => b
    case Num(n) => n != 0.0
    case Str(s) => s != ""
    case Arr(_) => true
    case Obj(_) => true
  }

  /** `a || b`: the first operand when it is truthy, the second otherwise. */
  function Or(a: Value, b: Value): Value
  {
    if Truthy(a) then a else b
  }

  /** `v.name`; reading a property of `null` or `undefined` throws, so callers never do. */
  function Prop(v: Value, name: string): Value
    requires !IsNullish(v)
  {
    match v
    case Obj(fields) => Get(fields, name).GetOr(Undefined)
    case _ => Undefined
  }

  /** `s || null` for a string that may be missing: the empty string counts as missing. */
  function Filled(s: Option<string>): Option<string>
  {
    if s.Some? && s.value != "" then s else None
  }

  /** `String(v)`. */
  function ToJsString(v: Value, host: Host): string
  {
    match v
    case Undefined => "undefined"
    case Null => "null"
    case Bool(b) => if b then "true" else "false"
    case Num(n) => host.numberToString(n)
    case Str(s) => s
    case Arr(elems) =>
      // Array.prototype.join(","): null and undefined elements print as nothing
      Text.Join(seq(|elems|, i requires 0 <= i < |elems| =>
        if IsNullish(elems[i]) then "" else ToJsString(elems[i], host)), ",")
    case Obj(_) => "[object Object]"
  }

  /** The largest distance from the epoch, in milliseconds, that a `Date` can hold. */
  const MaxTime: real := 8640000000000000.0

  /** `new Date(n).getTime()` for a number: `None` (NaN) out of range, else truncated to whole ms. */
  function TimeClip(n: real): Option<int>
  {
    if n < -MaxTime || n > MaxTime then None
    else if n >= 0.0 then Some(n.Floor)
    else Some(-((-n).Floor))
  }

  /** `new Date(v).getTime()`, `None` standing for an invalid date. */
  function NewDate(v: Value, host: Host): Option<int>
  {
    match v
    case Undefined => None
    case Null => Some(0)
    case Bool(b) => Some(if b then 1 else 0)
    case Num(n) => TimeClip(n)
    case Str(s) => host.parseDate(s)
    case Arr(_) => host.parseDate(ToJsString(v, host))
    case Obj(_) => host.parseDate(ToJsString(v, host))
  }

  /** `new Date(t).toISOString().split("T")[0]`: the calendar day of instant `t`. */
  function DayKey(t: int, host: Host): string
  {
    Text.Before(host.isoString(t), 'T')
  }
}
