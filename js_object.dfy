/** What a property read `obj[name]` finds on a plain JavaScript object that has no
    own property of that name: the members every object inherits from
    `Object.prototype`. */
module JsObject {
  import opened Wrappers

  /** The inherited value of `name` converted with `String(...)`, or nothing when
      objects inherit no such member. Every value listed is truthy. */
  function Inherited(name: string): Option<string>
  {
    if name == "__proto__" then Some("[object Object]")
    else if name == "constructor" then Some("function Object() { [native code] }")
    else if name in InheritedMethods then Some("function " + name + "() { [native code] }")
    else None
  }

  const InheritedMethods: set<string> :=
    {"toString", "toLocaleString", "valueOf", "hasOwnProperty", "isPrototypeOf",
     "propertyIsEnumerable", "__defineGetter__", "__defineSetter__", "__lookupGetter__",
     "__lookupSetter__"}
}
