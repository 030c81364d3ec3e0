/**
 * The object pool behind every handle (`ObjectManager`). Its own source is
 * not part of this model; the operations `Object.inl` delegates to are given
 * a concrete slot table here: each slot is occupied or free, carries a
 * generation counter, the address of the storage it currently holds and the
 * runtime type name of its object. Address 0 is the null pointer.
 */
module Pool {
  import opened Wrappers

  type Address = nat

  const Null: Address := 0

  /** `ObjectPtr<T>`: slot index, generation and a cached raw address (never trusted unchecked). */
  datatype ObjectPtr = ObjectPtr(ptrID: nat, ptrGeneration: nat, raw: Address)

  /** The handle a default-constructed `ObjectPtr` holds. */
  const NullPtr := ObjectPtr(0, 0, Null)

  datatype Slot = Slot(occupied: bool, generation: nat, address: Address, typeName: string)

  datatype ObjectManager = ObjectManager(slots: seq<Slot>, nextAddress: Address) {

    /**
     * Every live object sits at a non-null address that the allocator has
     * already handed out, and no two live objects share storage.
     */
    ghost predicate Valid() {
      && Null < nextAddress
      && (forall i | 0 <= i < |slots| && slots[i].occupied :: Null < slots[i].address < nextAddress)
      && (forall i, j | 0 <= i < j < |slots| && slots[i].occupied && slots[j].occupied ::
            slots[i].address != slots[j].address)
    }

    /** `IsValidPtr(id, generation, raw)`: the slot is live, of that generation, at that address. */
    predicate IsValidPtr(id: nat, generation: nat, raw: Address) {
      id < |slots| && slots[id].occupied && slots[id].generation == generation && slots[id].address == raw
    }

    /** `GetPtrFast(raw, id, generation)`: a handle rebuilt from an identity the object already knows. */
    function GetPtrFast(raw: Address, id: nat, generation: nat): ObjectPtr {
      ObjectPtr(id, generation, raw)
    }

    predicate HoldsType(id: nat, typeName: string) {
      id < |slots| && slots[id].occupied && slots[id].typeName == typeName
    }

    /** The handle that currently reaches slot `id`. */
    function HandleAt(id: nat): ObjectPtr
      requires id < |slots|
    {
      ObjectPtr(id, slots[id].generation, slots[id].address)
    }

    /** The handles to the live objects of type `typeName` in slots `from` and up, in slot order. */
    function HandlesFrom(typeName: string, from: nat): (r: seq<ObjectPtr>)
      requires from <= |slots|
      ensures forall p <- r :: from <= p.ptrID && HoldsType(p.ptrID, typeName) && p == HandleAt(p.ptrID)
      ensures forall id | from <= id && HoldsType(id, typeName) :: HandleAt(id) in r
      ensures forall i, j | 0 <= i < j < |r| :: r[i].ptrID < r[j].ptrID
      decreases |slots| - from
    {
      if from == |slots| then []
      else if HoldsType(from, typeName) then [HandleAt(from)] + HandlesFrom(typeName, from + 1)
      else HandlesFrom(typeName, from + 1)
    }

    /**
     * `FindObjectsByType<T>()`: one valid handle for every live object of
     * the type, nothing else, in slot order.
     */
    function FindObjectsByType(typeName: string): (r: seq<ObjectPtr>)
      ensures forall p <- r :: HoldsType(p.ptrID, typeName) && IsValidPtr(p.ptrID, p.ptrGeneration, p.raw)
      ensures forall id | HoldsType(id, typeName) :: HandleAt(id) in r
      ensures forall i, j | 0 <= i < j < |r| :: r[i].ptrID < r[j].ptrID
    {
      HandlesFrom(typeName, 0)
    }

    /**
     * `FindObjectByType<T>()`: the live object of the type in the lowest slot,
     * or the null handle, which never validates, when there is none.
     */
    function FindObjectByType(typeName: string): (p: ObjectPtr)
      requires Valid()
      ensures IsValidPtr(p.ptrID, p.ptrGeneration, p.raw) <==> exists id :: HoldsType(id, typeName)
      ensures IsValidPtr(p.ptrID, p.ptrGeneration, p.raw) ==>
        && HoldsType(p.ptrID, typeName)
        && forall id: nat | id < p.ptrID :: !HoldsType(id, typeName)
      ensures !IsValidPtr(p.ptrID, p.ptrGeneration, p.raw) ==> p == NullPtr
    {
      var all := FindObjectsByType(typeName);
      if all == [] then NullPtr
      else
        assert forall p <- all :: all[0].ptrID <= p.ptrID;
        all[0]
    }

    /** The lowest free slot at or after `from`, if any. */
    function FreeSlotFrom(from: nat): (r: Option<nat>)
      requires from <= |slots|
      ensures r.Some? ==> from <= r.value < |slots| && !slots[r.value].occupied
      ensures r.None? ==> forall id | from <= id < |slots| :: slots[id].occupied
      decreases |slots| - from
    {
      if from == |slots| then None
      else if !slots[from].occupied then Some(from)
      else FreeSlotFrom(from + 1)
    }

    /**
     * `CreatePtr<T>(args...)`: constructs a `typeName` object in fresh storage,
     * in a free slot (keeping that slot's generation) or a new one (generation 0),
     * and returns the handle to it.
     */
    function CreatePtr(typeName: string): (r: (ObjectManager, ObjectPtr))
      requires Valid()
      ensures var (m', p) := r;
        && m'.Valid()
        && m'.IsValidPtr(p.ptrID, p.ptrGeneration, p.raw)
        && m'.HoldsType(p.ptrID, typeName)
        && p.raw == nextAddress
        && (p.ptrID < |slots| ==> !slots[p.ptrID].occupied)
        && |m'.slots| >= |slots|
    {
      var free := FreeSlotFrom(0);
      var id := if free.Some? then free.value else |slots|;
      var generation := if free.Some? then slots[id].generation else 0;
      var slot := Slot(true, generation, nextAddress, typeName);
      var slots' := if free.Some? then slots[id := slot] else slots + [slot];
      (ObjectManager(slots', nextAddress + 1), ObjectPtr(id, generation, nextAddress))
    }
  }

  /**
   * Creating an object changes no other handle's validity: only handles to the
   * new storage address become valid. This rests on the stand-in allocator never
   * reusing an address (`nextAddress` only grows), not on generations: a pool
   * that rebuilt objects in the same storage would not satisfy it.
   */
  lemma CreatePtrKeepsOtherHandles(m: ObjectManager, typeName: string, id: nat, generation: nat, raw: Address)
    requires m.Valid()
    requires raw != m.CreatePtr(typeName).1.raw
    ensures m.CreatePtr(typeName).0.IsValidPtr(id, generation, raw) <==> m.IsValidPtr(id, generation, raw)
  {
  }

  /**
   * After `CreatePtr`, a type query returns the handles it returned before
   * plus the new handle, and a query for any other type is unchanged.
   */
  lemma {:induction false} CreatePtrThenFind(m: ObjectManager, typeName: string, other: string)
    requires m.Valid()
    ensures var (m', p) := m.CreatePtr(typeName);
      && (forall q :: q in m'.FindObjectsByType(typeName) <==> q in m.FindObjectsByType(typeName) || q == p)
      && (other != typeName ==> m'.FindObjectsByType(other) == m.FindObjectsByType(other))
  {
    var (m', p) := m.CreatePtr(typeName);
    forall q | q in m'.FindObjectsByType(typeName)
      ensures q in m.FindObjectsByType(typeName) || q == p
    {
      if q.ptrID != p.ptrID {
        assert m'.slots[q.ptrID] == m.slots[q.ptrID];
        assert m.HandleAt(q.ptrID) in m.FindObjectsByType(typeName);
      }
    }
    forall q | q in m.FindObjectsByType(typeName)
      ensures q in m'.FindObjectsByType(typeName)
    {
      assert m'.slots[q.ptrID] == m.slots[q.ptrID];
      assert m'.HandleAt(q.ptrID) in m'.FindObjectsByType(typeName);
    }
    assert m'.HandleAt(p.ptrID) in m'.FindObjectsByType(typeName);
    if other != typeName {
      SameQuery(m, m', other, 0);
    }
  }

  /** Two slot tables that agree on which slots hold a type give the same query result. */
  lemma {:induction false} SameQuery(m: ObjectManager, m': ObjectManager, typeName: string, from: nat)
    requires from <= |m.slots| <= |m'.slots|
    requires forall id | from <= id < |m'.slots| ::
      (m.HoldsType(id, typeName) <==> m'.HoldsType(id, typeName)) &&
      (m.HoldsType(id, typeName) ==> m.HandleAt(id) == m'.HandleAt(id))
    ensures m.HandlesFrom(typeName, from) == m'.HandlesFrom(typeName, from)
    decreases |m'.slots| - from
  {
    if from < |m.slots| {
      SameQuery(m, m', typeName, from + 1);
    } else {
      EmptyQuery(m', typeName, from);
    }
  }

  lemma {:induction false} EmptyQuery(m: ObjectManager, typeName: string, from: nat)
    requires from <= |m.slots|
    requires forall id | from <= id < |m.slots| :: !m.HoldsType(id, typeName)
    ensures m.HandlesFrom(typeName, from) == []
    decreases |m.slots| - from
  {
    if from < |m.slots| {
      EmptyQuery(m, typeName, from + 1);
    }
  }
}
