/** The plugin's settings store, as the provider reads it: a lookup by key
    with a default for a missing key. Values are the two kinds the provider's
    keys hold, a switch and a piece of text. */
module Settings {

  datatype Value = Flag(on: bool) | Text(s: string)

  type Store = map<string, Value>

  /** `Settings::get(key, default)`. */
  function Get(store: Store, key: string, default: Value): (v: Value)
    ensures key in store ==> v == store[key]
    ensures key !in store ==> v == default
  {
    if key in store then store[key] else default
  }

  /** PHP truthiness of a stored value: a switch is itself, a string is false
      only when it is "" or "0". */
  function Truthy(v: Value): (b: bool)
    ensures v.Flag? ==> (b <==> v.on)
    ensures v.Text? ==> (b <==> v.s !in {"", "0"})
  {
    match v
    case Flag(b) => b
    case Text(s) => s != "" && s != "0"
  }
}
