# MMMEngine object core: reflective JSON serializer and generational handles

This project models three pieces of the MMMEngine object framework in Dafny and proves properties about them:

- **The reflection-driven JSON serializer** (`JsonSerializer`). `Serialize` walks the properties that an object's runtime type declares. It builds the document `{ "type": <type name>, "properties": { ... } }` and leaves out every property whose value the value converter rejects. `Deserialize` rejects a document that has no `properties` object. Otherwise it writes back every declared property that is present in the document and converts successfully. It then returns true, whatever happened to the individual properties.
- **The handle checks of `Object.inl`** (`Objects`). `ObjectPtr::IsValid` asks the object manager about the handle's slot, generation and raw pointer. `IsSameObject` also requires equal slot and generation, and it re-validates both handles. `Object::SelfPtr` rebuilds a handle from the object's own identity. `CreatePtr` and the `Find...ByType` queries forward to the manager.
- **`Resolution` equality** (`Resolutions`).

Module layout:

- `wrappers.dfy` (`Wrappers`): `Option`.
- `json.dfy` (`Json`): the JSON value tree. Objects are maps from key to value.
- `reflection.dfy` (`Reflection`): the reflection layer reduced to a registry. A `TypeDescriptor` is a type name with its declared property names in declaration order. The class `Object` is an object as reflection sees it. Its runtime type is fixed, and its map of property values is updated in place.
- `json_serializer.dfy` (`JsonSerializer`): `Serialize` and `Deserialize` as methods with loops. They are proved against the left folds `CollectProperties` and `ApplyProperties`, and the lemmas below are stated over those folds. The file ends with three client methods. They go through the round trip, the partial document with an unknown key, and the document without `properties`, using converters for booleans, integers and strings.
- `pool.dfy` (`Pool`): a concrete slot table that stands in for `ObjectManager`. Each slot records whether it is occupied, its generation, its storage address and its object's type name. Address 0 is null. Storage addresses come from a counter, so every new object gets a fresh one. Besides the operations `Object.inl` calls, this module proves two facts about the stand-in. `CreatePtrKeepsOtherHandles`: creating an object changes the validity of no handle except those carrying the new address. `CreatePtrThenFind`: after a create, the type query returns the old handles plus the new one, and queries for other types are unchanged.
- `object.dfy` (`Objects`): `Object.inl`.
- `resolution.dfy` (`Resolutions`): `Resolution`.

`SerializeVariant` and `DeserializeVariant` are declared in `JsonSerializer.h` but their bodies are not in it. The model takes them as a parameter: the datatype `Converters` holds one total function for each. `DeserializeVariant(j, var)` becomes a function from the JSON value and the current value to `Option<Value>`. `None` stands for a false return; `Some(v)` stands for true, with `v` left in `var`. The round-trip lemma assumes `Inverts`: reading back a value that the serializer accepted, into a value of the same kind, yields the original value.

`Deserialize` never reads the document's `type` entry, so a document written for one type is applied to an object of any type (`TypeEntryIgnored`).

## Model

| member | source | states |
|---|---|---|
| JsonSerializer.Serialize | MMMEngineLib/JsonSerializer.h:28-49 | The loop over the declared properties builds exactly `SerializeDocument` of the object's type and values. The object is only read. |
| JsonSerializer.SerializeDocument | MMMEngineLib/JsonSerializer.h:31-35 | The document is an object with exactly the keys `type` and `properties`. `type` is the runtime type's name. `properties` is always a JSON object, even when no property converts. |
| JsonSerializer.CollectProperties | MMMEngineLib/JsonSerializer.h:37-46 | A name is in `properties` iff it is declared and `SerializeVariant` accepts its value; the stored entry is exactly the converter's result. Unconvertible properties are left out instead of failing the call. |
| JsonSerializer.Deserialize | MMMEngineLib/JsonSerializer.h:51-73 | Returns false and leaves the object unchanged iff `properties` is missing or is not an object. Otherwise it returns true, and the new values are `ApplyProperties` of the old ones. The object stays readable. |
| JsonSerializer.ApplyProperties | MMMEngineLib/JsonSerializer.h:58-70 | No property is added or removed. A property that is undeclared, or declared but absent from the document, keeps its value. A property whose conversion fails keeps its value. |
| JsonSerializer.ApplyIsUpdateRule | MMMEngineLib/JsonSerializer.h:56-72 | When each property is declared once, Deserialize's loop equals the partial-map update rule: declared, present and converted properties take the converted value, and everything else keeps its previous value. |
| JsonSerializer.UndeclaredKeysIgnored | MMMEngineLib/JsonSerializer.h:58-70 | Document keys the type does not declare are never read: two `properties` sections that agree on the declared names give the same result. |
| JsonSerializer.TypeEntryIgnored | MMMEngineLib/JsonSerializer.h:51-56 | Replacing the document's `type` entry does not change whether Deserialize accepts it or what it writes. |
| JsonSerializer.RoundTrip | MMMEngineLib/JsonSerializer.h:28-73 | Given converters that invert each other, deserializing `Serialize(a)` into a same-typed `b` is accepted. Every declared property of `b` whose value in `a` converts becomes equal to `a`'s, and every other property of `b` keeps its value. |
| Objects.IsValid | MMMEngineLib/Object.inl:13-17 | Exactly the manager's `IsValidPtr` on the handle's own id, generation and raw pointer; a pure function of the pool state. A valid handle is the one that currently reaches its slot. |
| Objects.IsSameObject | MMMEngineLib/Object.inl:19-32 | True iff ids and generations match and both handles pass `IsValidPtr`, each with its own raw pointer. |
| Objects.IsSameObjectNeedsSameSlot | MMMEngineLib/Object.inl:22-24 | Handles that differ in id or in generation are never the same object. |
| Objects.IsSameObjectImpliesValid | MMMEngineLib/Object.inl:26-31 | A successful comparison implies that the receiver and the other handle are both valid. |
| Objects.IsSameObjectWithItself | MMMEngineLib/Object.inl:26-31 | A handle compared with itself gives exactly `IsValid()`. |
| Objects.IsSameObjectSymmetric | MMMEngineLib/Object.inl:19-32 | The comparison does not depend on which handle is the receiver. |
| Objects.IsSameObjectTransitive | MMMEngineLib/Object.inl:19-32 | The comparison is transitive. |
| Objects.IsSameObjectIsIdentity | MMMEngineLib/Object.inl:19-32 | Over the slot table, two handles are the same object iff they are the same valid handle: the raw pointers must agree as well, because each must equal the slot's address. |
| Objects.SelfPtr | MMMEngineLib/Object.inl:47-52 | Requires the argument to be the object itself. Returns the manager's `GetPtrFast` handle for the object's own id and generation, with the object's address as raw pointer. |
| Objects.SelfPtrIdentity | MMMEngineLib/Object.inl:47-52 | For a live object, `SelfPtr` is valid. It is the same object as exactly those valid handles that carry the object's id and generation. |
| Objects.CreatePtr | MMMEngineLib/Object.inl:6-11 | Returns the manager's result unchanged. The new handle is valid and reaches a live object of the requested type. |
| Objects.FindObjectByType | MMMEngineLib/Object.inl:35-39 | Returns the manager's result unchanged. The result is valid iff a live object of the type exists, and a valid result reaches an object of that type. |
| Objects.FindObjectsByType | MMMEngineLib/Object.inl:41-45 | Returns the manager's list unchanged, with no filtering added. Every handle in it is valid and of the type, and every live object of the type appears in it. |
| Resolutions.Equal | MMMEngineLib/Resolution.h:10-13 | `==` holds iff both width and height are equal, which is exactly equality of the two values. |
| Resolutions.EqualReflexive | MMMEngineLib/Resolution.h:10-13 | `==` is reflexive. |
| Resolutions.EqualSymmetric | MMMEngineLib/Resolution.h:10-13 | `==` is symmetric. |
| Resolutions.EqualTransitive | MMMEngineLib/Resolution.h:10-13 | `==` is transitive. |

## Left out

- The bodies of `SerializeVariant` and `DeserializeVariant` are not in the source. They are parameters here, so the model says nothing about which value kinds convert. `ScalarToJson`/`ScalarFromJson` only exist for the three client methods at the end of json_serializer.dfy.
- Nested-object and container property values are not serialized recursively: the code sends every property value through the one `SerializeVariant`/`DeserializeVariant` pair.
- RTTR internals are not modelled: registration and base-class property inheritance. The property list of a type is whatever `TypeDescriptor` holds, read-only properties included.
- The model assumes `prop.set_value` (MMMEngineLib/JsonSerializer.h:68) always succeeds. RTTR's setter fails, returns false and leaves the value unchanged for a read-only property and on a type mismatch; the source ignores that result, and neither failure is modelled.
- JsonSerializer.ApplyIsUpdateRule, JsonSerializer.RoundTrip: "takes the converted value" holds only for writable properties whose setter accepts the value, because of the `set_value` assumption above.
- A property value is a boolean, an integer, a string or an opaque value. Floating-point and nested-object values are not modelled.
- `ObjectManager` is not part of this model beyond the `Pool` stand-in. Destroying objects and the generation bump on free are not modelled. The process-wide singleton and pool exhaustion are not modelled either. Type queries match the exact type name, not derived types.
- `Objects.FindObjectsByType` states membership, not the order in which the real manager lists objects. `Pool` lists them in slot order.
- Handle ids, generations and addresses are unbounded naturals, so 32-bit counter wrap-around is not modelled.
- `MMMEngineLib/Json.hpp` is not modelled: text parsing and dumping, file load/save and exception translation are I/O over a foreign library. The model works on the JSON tree only.
- `MMMEngineLib/App.h` (window creation and the message loop) and `MMMEngineLib/MMMScreen.h` (forwarding calls to the application object) are not modelled: they are OS plumbing with no logic of their own.
- `MMMEngineLib/Delegates.h` is not modelled: it only aliases an external delegate library.
- `MMMEngineLib/Component.h` is not modelled: it adds only an owner-handle field and has no behaviour.
- Typed handles (`ObjectPtr<T>`) are not modelled: handles carry no static type.
