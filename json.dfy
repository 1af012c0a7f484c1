/**
 * JavaScript values as `JSON.parse` produces them from model output, plus
 * `Undefined` for a property that is absent. Numbers are integers here.
 */
module Json {
  import JsText

  datatype Value =
    | Undefined
    | Null
    | Bool(b: bool)
    | Num(n: int)
    | Str(s: string)
    | Arr(items: seq<Value>)
    | Obj(fields: map<string, Value>)

  /** What `JSON.parse` made of a model's text: a value, or a thrown `SyntaxError`. */
  datatype Parse = Unparseable | Parsed(value: Value)

  /** JavaScript truthiness: `undefined`, `null`, `false`, `0` and `""` are falsy. */
  predicate Truthy(v: Value)
    ensures Truthy(v) <==> v !in {Undefined, Null, Bool(false), Num(0), Str("")}
  {
    match v
    case Undefined => false
    case Null => false
    case Bool(b) => b
    case Num(n) => n != 0
    case Str(s) => s != ""
    case Arr(_) => true
    case Obj(_) => true
  }

  /** Property access `v.key`: `undefined` unless `v` is an object that has the key. */
  function Get(v: Value, key: string): (r: Value)
    ensures v.Obj? && key in v.fields ==> r == v.fields[key]
    ensures !(v.Obj? && key in v.fields) ==> r == Undefined
  {
    if v.Obj? && key in v.fields then v.fields[key] else Undefined
  }

  /** `String(v)`, the conversion a template literal applies. */
  function ToJsString(v: Value): (r: string)
    ensures v.Str? ==> r == v.s
    ensures v.Undefined? ==> r == "undefined"
    ensures v.Null? ==> r == "null"
    ensures v.Bool? ==> r == (if v.b then "true" else "false")
    ensures v.Num? ==> r == JsText.IntToString(v.n)
    ensures v.Obj? ==> r == "[object Object]"
    ensures v.Arr? && |v.items| == 0 ==> r == ""
    ensures v.Arr? && |v.items| == 1 ==> r == ItemText(v.items[0])
    decreases v, 1, 0
  {
    match v
    case Undefined => "undefined"
    case Null => "null"
    case Bool(b) => if b then "true" else "false"
    case Num(n) => JsText.IntToString(n)
    case Str(s) => s
    case Arr(items) => JoinItems(v, 0)
    case Obj(_) => "[object Object]"
  }

  /** The message of the `TypeError` thrown when a property `key` is read on `null`. */
  function NullRead(key: string): (r: string)
    ensures JsText.StartsWith(r, "Cannot read properties of null")
  {
    "Cannot read properties of null (reading '" + key + "')"
  }

  /** How `join` prints one array item: `null` and `undefined` as nothing, anything else through `String`. */
  function ItemText(item: Value): string
    decreases item, 2, 0
  {
    if item.Undefined? || item.Null? then "" else ToJsString(item)
  }

  /** `Array.prototype.join(",")` from position `i` on. */
  function JoinItems(v: Value, i: nat): (r: string)
    requires v.Arr? && i <= |v.items|
    decreases v, 0, |v.items| - i
  {
    if i == |v.items| then ""
    else if i + 1 == |v.items| then ItemText(v.items[i])
    else ItemText(v.items[i]) + "," + JoinItems(v, i + 1)
  }

  /** Joining from position `i` is joining the array without its first item from position `i - 1`. */
  lemma {:induction false} JoinItemsShift(items: seq<Value>, i: nat)
    requires 1 <= i <= |items|
    ensures JoinItems(Arr(items), i) == JoinItems(Arr(items[1..]), i - 1)
    decreases |items| - i
  {
    if i + 1 < |items| {
      JoinItemsShift(items, i + 1);
    }
  }

  /** An array of two or more items prints as its first item, a comma, and the rest of the array. */
  lemma ArrayToStringCons(items: seq<Value>)
    requires |items| >= 2
    ensures ToJsString(Arr(items)) == ItemText(items[0]) + "," + ToJsString(Arr(items[1..]))
  {
    JoinItemsShift(items, 1);
  }

  /** Two items print with one comma between them, e.g. `String(["a", "b"])` is `a,b`. */
  lemma ArrayToStringPair(a: Value, b: Value)
    ensures ToJsString(Arr([a, b])) == ItemText(a) + "," + ItemText(b)
  {
    ArrayToStringCons([a, b]);
    assert [a, b][1..] == [b];
  }
}
