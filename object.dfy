/**
 * The handle checks and the delegating helpers of `Object.inl`, as functions
 * of the pool state they read. None of them changes the pool: the C++ members
 * are `const` or only forward to the manager.
 *
 * The lemmas on `IsSameObject` first use nothing but its shape (equal slot and
 * generation, then both sides re-validated through `IsValidPtr`); the last one,
 * `IsSameObjectIsIdentity`, also uses the slot table of `Pool`.
 */
module Objects {
  import opened Pool

  /** `ObjectPtr<T>::IsValid`: the manager's verdict on the handle's own id, generation and raw pointer. */
  function IsValid(m: ObjectManager, p: ObjectPtr): (r: bool)
    ensures r <==> m.IsValidPtr(p.ptrID, p.ptrGeneration, p.raw)
    ensures r ==> p == m.HandleAt(p.ptrID)
  {
    m.IsValidPtr(p.ptrID, p.ptrGeneration, p.raw)
  }

  /**
   * `ObjectPtr<T>::IsSameObject`: false as soon as id or generation differ;
   * otherwise both handles must pass `IsValidPtr`, each with its own raw pointer.
   */
  function IsSameObject(m: ObjectManager, p: ObjectPtr, other: ObjectPtr): (r: bool)
    ensures r <==>
      && p.ptrID == other.ptrID && p.ptrGeneration == other.ptrGeneration
      && m.IsValidPtr(p.ptrID, p.ptrGeneration, p.raw)
      && m.IsValidPtr(other.ptrID, other.ptrGeneration, other.raw)
  {
    if p.ptrID != other.ptrID || p.ptrGeneration != other.ptrGeneration then false
    else IsValid(m, p) && m.IsValidPtr(other.ptrID, other.ptrGeneration, other.raw)
  }

  lemma IsSameObjectNeedsSameSlot(m: ObjectManager, p: ObjectPtr, other: ObjectPtr)
    requires p.ptrID != other.ptrID || p.ptrGeneration != other.ptrGeneration
    ensures !IsSameObject(m, p, other)
  {
  }

  /** Both sides of a successful comparison are valid handles. */
  lemma IsSameObjectImpliesValid(m: ObjectManager, p: ObjectPtr, other: ObjectPtr)
    requires IsSameObject(m, p, other)
    ensures IsValid(m, p) && IsValid(m, other)
  {
  }

  /** A handle is the same object as itself exactly when it is valid. */
  lemma IsSameObjectWithItself(m: ObjectManager, p: ObjectPtr)
    ensures IsSameObject(m, p, p) <==> IsValid(m, p)
  {
  }

  lemma IsSameObjectSymmetric(m: ObjectManager, p: ObjectPtr, q: ObjectPtr)
    ensures IsSameObject(m, p, q) <==> IsSameObject(m, q, p)
  {
  }

  lemma IsSameObjectTransitive(m: ObjectManager, p: ObjectPtr, q: ObjectPtr, s: ObjectPtr)
    requires IsSameObject(m, p, q) && IsSameObject(m, q, s)
    ensures IsSameObject(m, p, s)
  {
  }

  /**
   * Over the slot table, two handles are the same object exactly when they are
   * one and the same valid handle: the raw pointers agree too, since each must
   * equal the slot's current address.
   */
  lemma IsSameObjectIsIdentity(m: ObjectManager, p: ObjectPtr, q: ObjectPtr)
    ensures IsSameObject(m, p, q) <==> p == q && IsValid(m, p)
  {
  }

  /**
   * The identity an `Object` keeps about itself: its slot, its generation and its own address.
   * This is the handle-side view of `Object`; `Reflection.Object` is its property-value view.
   */
  datatype Object = Object(ptrID: nat, ptrGen: nat, address: Address)

  /** The object is the live occupant of the slot it records. */
  predicate IsLive(m: ObjectManager, obj: Object) {
    m.IsValidPtr(obj.ptrID, obj.ptrGen, obj.address)
  }

  /**
   * `Object::SelfPtr(self)`: the caller must pass the object itself; the result
   * is the manager's fast handle for the object's own id and generation.
   */
  function SelfPtr(m: ObjectManager, obj: Object, self: Address): (p: ObjectPtr)
    requires self == obj.address
    ensures p == m.GetPtrFast(obj.address, obj.ptrID, obj.ptrGen)
    ensures p.ptrID == obj.ptrID && p.ptrGeneration == obj.ptrGen && p.raw == self
  {
    m.GetPtrFast(obj.address, obj.ptrID, obj.ptrGen)
  }

  /**
   * For a live object, `SelfPtr` is valid and is the same object as exactly
   * the valid handles that carry the object's slot and generation.
   */
  lemma SelfPtrIdentity(m: ObjectManager, obj: Object, q: ObjectPtr)
    requires IsLive(m, obj)
    ensures IsValid(m, SelfPtr(m, obj, obj.address))
    ensures IsSameObject(m, SelfPtr(m, obj, obj.address), q) <==>
      IsValid(m, q) && q.ptrID == obj.ptrID && q.ptrGeneration == obj.ptrGen
  {
  }

  /**
   * `Object::CreatePtr<T>(args...)`: the manager's new state and handle, unchanged;
   * the handle is valid and reaches a live object of the requested type.
   */
  function CreatePtr(m: ObjectManager, typeName: string): (r: (ObjectManager, ObjectPtr))
    requires m.Valid()
    ensures r == m.CreatePtr(typeName)
    ensures r.0.Valid() && IsValid(r.0, r.1) && r.0.HoldsType(r.1.ptrID, typeName)
  {
    m.CreatePtr(typeName)
  }

  /** `Object::FindObjectByType<T>()`: the manager's answer, valid iff a live object of the type exists. */
  function FindObjectByType(m: ObjectManager, typeName: string): (p: ObjectPtr)
    requires m.Valid()
    ensures p == m.FindObjectByType(typeName)
    ensures IsValid(m, p) <==> exists id :: m.HoldsType(id, typeName)
    ensures IsValid(m, p) ==> m.HoldsType(p.ptrID, typeName)
  {
    m.FindObjectByType(typeName)
  }

  /** `Object::FindObjectsByType<T>()`: the manager's list, unfiltered: every live object of the type, each valid. */
  function FindObjectsByType(m: ObjectManager, typeName: string): (r: seq<ObjectPtr>)
    ensures r == m.FindObjectsByType(typeName)
    ensures forall p <- r :: IsValid(m, p) && m.HoldsType(p.ptrID, typeName)
    ensures forall id | m.HoldsType(id, typeName) :: exists p <- r :: p.ptrID == id
  {
    m.FindObjectsByType(typeName)
  }
}
