/** Plain values shared by the whole export pipeline. */
module Records {

  datatype Option<+T> = None | Some(value: T)

  /** A JavaScript property value as this program sees it: a string, or
      `undefined` when the property is missing (or was set to undefined). */
  datatype Value = Undefined | Str(s: string)

  /** A plain JavaScript object (an event, or one parsed CSV row):
      property name to value. */
  type Record = map<string, Value>

  /** Property access `r.key`: undefined when the property is absent. */
  function Prop(r: Record, key: string): Value
  {
    if key in r then r[key] else Undefined
  }

  /** What a template literal `${v}` makes of a value. */
  function Text(v: Value): string
  {
    match v
    case Undefined => "undefined"
    case Str(s) => s
  }
}
