/**
 * The reflection layer the serializer relies on (RTTR), reduced to a registry:
 * a runtime type is a name with an ordered list of declared property names,
 * and an object is that type together with the current value of each property.
 */
module Reflection {

  /** A dynamically typed property value (an RTTR `variant`). */
  datatype Value =
    | VBool(b: bool)
    | VInt(i: int)
    | VString(s: string)
    | VOther(typeName: string, payload: nat)  // a kind no converter is assumed to know

  datatype Kind = KBool | KInt | KString | KOther(typeName: string)

  function KindOf(v: Value): Kind {
    match v
    case VBool(_) => KBool
    case VInt(_) => KInt
    case VString(_) => KString
    case VOther(t, _) => KOther(t)
  }

  predicate SameKind(v: Value, w: Value) {
    KindOf(v) == KindOf(w)
  }

  /** `type::get(obj)`: the registered name and the declared properties, in declaration order. */
  datatype TypeDescriptor = TypeDescriptor(name: string, properties: seq<string>)

  predicate Distinct(names: seq<string>) {
    forall i, j | 0 <= i < j < |names| :: names[i] != names[j]
  }

  /** Every declared property of the type can be read (`prop.get_value(obj)`). */
  predicate Readable(names: seq<string>, values: map<string, Value>) {
    forall n <- names :: n in values
  }

  /**
   * An `Object` as reflection sees it: its runtime type never changes,
   * its property values are updated in place by `prop.set_value`.
   * This is the property-value view of `Object`; `Objects.Object` is its handle-side identity.
   */
  class Object {
    const runtimeType: TypeDescriptor
    var values: map<string, Value>

    ghost predicate Valid()
      reads this
    {
      Readable(runtimeType.properties, values)
    }

    constructor (t: TypeDescriptor, initial: map<string, Value>)
      requires Readable(t.properties, initial)
      ensures Valid()
      ensures runtimeType == t && values == initial
    {
      runtimeType := t;
      values := initial;
    }
  }
}
