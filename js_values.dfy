/** The value `JSON.parse` hands to the layout loader (RFC 8259 value plus the
    `undefined` that a missing property reads as), and the three JavaScript
    operations the loaders apply to it: `typeof v === "object"`, property
    lookup, truthiness, and whether converting a value to a primitive throws.
    Numbers are integers in this model. */
module JsValues {

  datatype JsValue =
    | Undefined
    | Null
    | Bool(b: bool)
    | Num(n: int)
    | Str(s: string)
    | Arr(elems: seq<JsValue>)
    | Obj(fields: map<string, JsValue>)

  /** `typeof v === "object" && v !== null`: arrays are objects too. */
  predicate IsObject(v: JsValue) {
    v.Obj? || v.Arr?
  }

  /** `v[key]` for a value that is not null or undefined: an own field of an
      object, `undefined` for anything else (no prototype property is named
      `slotCount`, `items`, `id`, `label`, `size`, `imageUrl`, `isBlank` or `link`). */
  function Get(v: JsValue, key: string): (r: JsValue)
    ensures !v.Obj? ==> r == Undefined
    ensures v.Obj? && key !in v.fields ==> r == Undefined
  {
    if v.Obj? && key in v.fields then v.fields[key] else Undefined
  }

  /** JavaScript truthiness: `undefined`, `null`, `false`, `0` and `""` are falsy. */
  predicate Truthy(v: JsValue) {
    match v
    case Undefined => false
    case Null => false
    case Bool(b) => b
    case Num(n) => n != 0
    case Str(s) => s != ""
    case Arr(_) => true
    case Obj(_) => true
  }

  /** Whether converting `v` to a primitive throws a `TypeError` (ToPrimitive,
      section 7.1.1 of ECMA-262), as `size >= 1` and `String(v)` do. A parsed
      object inherits a `valueOf` that returns the object itself and a
      `toString` that returns text, so only an own `toString` field, which
      is data and cannot be called, leaves the conversion nothing to use.
      An array converts through `join`, which converts every element that
      is neither null nor undefined. */
  predicate ToPrimitiveThrows(v: JsValue) {
    match v
    case Obj(m) => "toString" in m
    case Arr(es) => exists i :: 0 <= i < |es| && ToPrimitiveThrows(es[i])
    case _ => false
  }
}
