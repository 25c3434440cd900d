/** What a reaction handler does on one input: it sends one value on a
    topic, logs a warning, or throws.  The handlers in flows/link.js,
    schemas/kinetic-link.js, schema/snmp.js and schemas/kinetic-react-js.js
    are modelled as functions to these outcomes. */
module Outcomes {
  import opened Wrappers
  import opened Values

  datatype Outcome =
    | Sent(topic: string, value: Value)
    | Warned(message: string, detail: Value)
    | Thrown(message: string)
    | Reported(error: Value)

  /** A property read `o.key` (or a destructuring of `o`): `undefined` and
      `null` throw a TypeError, any other value reads as `Get` does. */
  function ReadProp(o: Value, key: string): (r: Result<Value, string>)
    ensures r.Throw? <==> o.Undefined? || o.Null?
    ensures r.Ok? ==> r.value == Get(o, key)
  {
    if o.Undefined? || o.Null? then
      Throw("Cannot read properties of " + (if o.Null? then "null" else "undefined")
            + " (reading '" + key + "')")
    else Ok(Get(o, key))
  }
}
