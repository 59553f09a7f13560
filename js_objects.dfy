/**
 * Property access on a JavaScript plain object (`{}` or an object literal): besides its
 * own keys, a read finds the members every such object inherits from `Object.prototype`,
 * and an assignment to the key `__proto__` runs the inherited setter instead of creating
 * a key.
 */
module JsObjects {

  /** The key whose assignment goes to the prototype setter. */
  const ProtoKey := "__proto__"

  /** The property names a plain object inherits from `Object.prototype`. */
  const PrototypeMembers: set<string> := {
    "constructor", "hasOwnProperty", "isPrototypeOf", "propertyIsEnumerable", "toString", "valueOf",
    "toLocaleString", "__defineGetter__", "__defineSetter__", "__lookupGetter__", "__lookupSetter__", ProtoKey
  }

  /**
   * The inherited members that are functions declaring no parameter, so their `length` is 0.
   * The other functions declare one or two; `__proto__` reads `Object.prototype`, an
   * object without a `length`.
   */
  const NullaryMembers: set<string> := {"toString", "valueOf", "toLocaleString"}

  /**
   * The own keys after `obj[key] = value`: the key set to the value, except for `__proto__`,
   * whose setter changes the prototype (or ignores a primitive) and creates no own key.
   */
  function Assign<V>(obj: map<string, V>, key: string, value: V): (r: map<string, V>)
    ensures r.Keys == if key == ProtoKey then obj.Keys else obj.Keys + {key}
    ensures forall k :: k in r && k != key ==> r[k] == obj[k]
    ensures key != ProtoKey ==> r[key] == value
  {
    if key == ProtoKey then obj else obj[key := value]
  }

  /** Assigning into an object is assigning into the own-key map and then dropping `__proto__`. */
  lemma AssignDropsProto<V>(obj: map<string, V>, key: string, value: V)
    ensures Assign(obj - {ProtoKey}, key, value) == obj[key := value] - {ProtoKey}
  {
    var lhs, rhs := Assign(obj - {ProtoKey}, key, value), obj[key := value] - {ProtoKey};
    assert lhs.Keys == rhs.Keys;
    forall k | k in lhs
      ensures lhs[k] == rhs[k]
    {
    }
  }
}
