/**
 * Property lookup on a plain JavaScript object used as a dictionary
 * (`Record<string, T>`): `obj[key]` finds an own property, or one that every
 * plain object inherits from `Object.prototype`, or nothing (`undefined`).
 */
module JsObject {

  /** The property names a plain object inherits from `Object.prototype`. */
  const PrototypeNames: set<string> := {
    "constructor", "__proto__", "hasOwnProperty", "isPrototypeOf",
    "propertyIsEnumerable", "toLocaleString", "toString", "valueOf",
    "__defineGetter__", "__defineSetter__", "__lookupGetter__", "__lookupSetter__"
  }

  /** What `obj[key]` yields: the stored value, an inherited member, or `undefined`. */
  datatype Access<T> = Own(value: T) | Inherited(name: string) | Undefined

  /** `obj[key]`: own properties shadow inherited ones. */
  function Get<T>(obj: map<string, T>, key: string): (r: Access<T>)
    ensures r.Own? <==> key in obj
    ensures r.Own? ==> r.value == obj[key]
    ensures r.Inherited? <==> key !in obj && key in PrototypeNames
    ensures r.Inherited? ==> r.name == key
    ensures r.Undefined? <==> key !in obj && key !in PrototypeNames
  {
    if key in obj then Own(obj[key])
    else if key in PrototypeNames then Inherited(key)
    else Undefined
  }
}
