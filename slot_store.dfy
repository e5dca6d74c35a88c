/** Assigning pallets to warehouse slots and releasing them
    (`asignar_ubicacion`, `liberar_ubicacion`). The application checks its
    guards against the tables and only then calls the stored procedures that
    change them; those procedures are not part of this model and are
    reduced to the state change the code relies on. */
module SlotStore {
  import opened Values

  /** id_pallet, the pallet table's key. */
  type PalletId = int

  /** ubicacion_key, the slot table's key. */
  type SlotKey = int

  /** A lane: the slots that share floor, rack and letter. */
  datatype Lane = Lane(floor: Value, rack: Value, letter: Value)

  /** Where a slot is: its warehouse type, its lane and its position in the
      lane (1 is the head). */
  datatype Place = Place(kind: Value, lane: Lane, position: int)

  datatype Failure =
    | NotAnInteger                    // the id does not convert to an integer
    | PalletNotFound(pallet: PalletId)
    | AlreadyAssigned(slot: SlotKey)  // reports the slot the pallet holds
    | NotAssigned(pallet: PalletId)
    | NotAtHead                       // the pallet is not at position 1
    | StorageError                    // the allocation procedure failed

  datatype Confirmation =
    | AssignedTo(pallet: PalletId, kind: Value, lane: Lane)
    | ReleasedFrom(pallet: PalletId)

  datatype Result = Ok(value: Confirmation) | Err(error: Failure)

  class Store {
    /** The ids in the pallet table. */
    var pallets: set<PalletId>
    /** The slot table's fixed columns: where each slot is. */
    var layout: map<SlotKey, Place>
    /** The slot table's id_pallet_asignado column, for the occupied slots. */
    var occupant: map<SlotKey, PalletId>

    /** Every occupied slot exists and holds a known pallet, and no pallet
        is in two slots. */
    ghost predicate Valid()
      reads this
    {
      && occupant.Keys <= layout.Keys
      && (forall k :: k in occupant ==> occupant[k] in pallets)
      && (forall k1, k2 :: k1 in occupant && k2 in occupant && occupant[k1] == occupant[k2] ==> k1 == k2)
    }

    /** Some slot holds the pallet. */
    predicate Placed(id: PalletId)
      reads this
    {
      exists k :: k in occupant && occupant[k] == id
    }

    constructor (pallets: set<PalletId>, layout: map<SlotKey, Place>, occupant: map<SlotKey, PalletId>)
      requires occupant.Keys <= layout.Keys
      requires forall k :: k in occupant ==> occupant[k] in pallets
      requires forall k1, k2 :: k1 in occupant && k2 in occupant && occupant[k1] == occupant[k2] ==> k1 == k2
      ensures Valid()
      ensures this.pallets == pallets && this.layout == layout && this.occupant == occupant
    {
      this.pallets := pallets;
      this.layout := layout;
      this.occupant := occupant;
    }

    /** The slot that holds the pallet, if any
        (`SELECT ubicacion_key FROM ubicaciones WHERE id_pallet_asignado = ?`). */
    method FindSlot(id: PalletId) returns (slot: Option<SlotKey>)
      requires Valid()
      ensures slot.Some? <==> Placed(id)
      ensures slot.Some? ==> slot.value in occupant && occupant[slot.value] == id
      ensures forall k :: k in occupant && occupant[k] == id ==> slot == Some(k)
    {
      if k :| k in occupant && occupant[k] == id {
        slot := Some(k);
      } else {
        slot := None;
      }
    }

    /** The allocation procedure (`reasignar_pallet`) as far as the
        application relies on it: it receives floor, rack and letter, not the
        warehouse type, and either places the pallet in some free slot of that
        lane or fails, here exactly when the lane has no free slot. Which free
        slot it picks is left open. */
    method ReassignPallet(id: PalletId, lane: Lane) returns (slot: Option<SlotKey>)
      requires Valid() && id in pallets && !Placed(id)
      modifies this
      ensures Valid()
      ensures pallets == old(pallets) && layout == old(layout)
      ensures slot.None? ==> occupant == old(occupant)
      ensures slot.None? ==> forall k :: k in layout && layout[k].lane == lane ==> k in occupant
      ensures slot.Some? ==>
        && slot.value in layout && layout[slot.value].lane == lane
        && slot.value !in old(occupant)
        && occupant == old(occupant)[slot.value := id]
    {
      if k :| k in layout && layout[k].lane == lane && k !in occupant {
        occupant := occupant[k := id];
        slot := Some(k);
      } else {
        slot := None;
      }
    }

    /** `asignar_ubicacion`: refuses an id that is not an integer, a pallet
        that does not exist and a pallet that already has a slot (reporting
        that slot), in this order, leaving the tables as they were; otherwise
        lets the allocation procedure place the pallet in the requested lane. */
    method Assign(rawId: Option<int>, kind: Value, lane: Lane) returns (r: Result)
      requires Valid()
      modifies this
      ensures Valid()
      ensures pallets == old(pallets) && layout == old(layout)
      ensures rawId.None? ==> r == Err(NotAnInteger)
      ensures rawId.Some? && rawId.value !in pallets ==> r == Err(PalletNotFound(rawId.value))
      ensures forall k :: rawId.Some? && k in old(occupant) && old(occupant)[k] == rawId.value ==>
        r == Err(AlreadyAssigned(k))
      ensures r.Err? ==> occupant == old(occupant)
      ensures r.Ok? ==>
        && rawId.Some? && r.value == AssignedTo(rawId.value, kind, lane)
        && rawId.value in pallets && !old(Placed(rawId.value))
        && exists k :: k in layout && layout[k].lane == lane && k !in old(occupant) && occupant == old(occupant)[k := rawId.value]
      ensures rawId.Some? && rawId.value in pallets && !old(Placed(rawId.value)) ==>
        (r.Ok? || (r == Err(StorageError) && forall k :: k in layout && layout[k].lane == lane ==> k in occupant))
    {
      if rawId.None? {
        return Err(NotAnInteger);
      }
      var id := rawId.value;
      if id !in pallets {
        return Err(PalletNotFound(id));
      }
      var current := FindSlot(id);
      if current.Some? {
        return Err(AlreadyAssigned(current.value));
      }
      var slot := ReassignPallet(id, lane);
      if slot.None? {
        return Err(StorageError);
      }
      var k := slot.value;
      assert k in layout && layout[k].lane == lane && k !in old(occupant) && occupant == old(occupant)[k := id];
      r := Ok(AssignedTo(id, kind, lane));
    }

    /** The removal procedure (`retirar_pallet`) as far as the application
        relies on it: the pallet in `slot` no longer holds a slot, every other
        pallet keeps holding one exactly when it did before, and slots outside
        that lane keep their occupants. How the procedure reorganises the
        pallets left in the lane is left open. */
    method RetirePallet(slot: SlotKey)
      requires Valid() && slot in occupant
      modifies this
      ensures Valid()
      ensures pallets == old(pallets) && layout == old(layout)
      ensures !Placed(old(occupant)[slot])
      ensures forall p :: p != old(occupant)[slot] ==> (Placed(p) <==> old(Placed(p)))
      ensures forall k :: k in layout && layout[k].lane != layout[slot].lane ==>
        (k in occupant <==> k in old(occupant)) && (k in occupant ==> occupant[k] == old(occupant)[k])
    {
      ghost var before := occupant;
      occupant := occupant - {slot};
      forall p | p != before[slot] ensures Placed(p) <==> old(Placed(p)) {
        if old(Placed(p)) {
          var k :| k in before && before[k] == p;
          assert k in occupant && occupant[k] == p;
        }
      }
    }

    /** `liberar_ubicacion`: refuses an id that is not an integer, a pallet
        that does not exist, a pallet with no slot and a pallet that is not at
        the head of its lane, in this order, leaving the tables as they were;
        otherwise lets the removal procedure take the pallet out. */
    method Release(rawId: Option<int>) returns (r: Result)
      requires Valid()
      modifies this
      ensures Valid()
      ensures pallets == old(pallets) && layout == old(layout)
      ensures rawId.None? ==> r == Err(NotAnInteger)
      ensures rawId.Some? && rawId.value !in pallets ==> r == Err(PalletNotFound(rawId.value))
      ensures rawId.Some? && rawId.value in pallets && !old(Placed(rawId.value)) ==> r == Err(NotAssigned(rawId.value))
      ensures forall k :: rawId.Some? && k in old(occupant) && old(occupant)[k] == rawId.value ==>
        && (layout[k].position != 1 ==> r == Err(NotAtHead))
        && (layout[k].position == 1 ==> r == Ok(ReleasedFrom(rawId.value)))
      ensures r.Err? ==> occupant == old(occupant)
      ensures r.Ok? ==>
        && rawId.Some? && !Placed(rawId.value)
        && (forall p :: p != rawId.value ==> (Placed(p) <==> old(Placed(p))))
        && exists k :: (k in old(occupant) && old(occupant)[k] == rawId.value && layout[k].position == 1
          && forall j :: j in layout && layout[j].lane != layout[k].lane ==>
            (j in occupant <==> j in old(occupant)) && (j in occupant ==> occupant[j] == old(occupant)[j]))
    {
      if rawId.None? {
        return Err(NotAnInteger);
      }
      var id := rawId.value;
      if id !in pallets {
        return Err(PalletNotFound(id));
      }
      var current := FindSlot(id);
      if current.None? {
        return Err(NotAssigned(id));
      }
      var slot := current.value;
      if layout[slot].position != 1 {
        return Err(NotAtHead);
      }
      RetirePallet(slot);
      assert slot in old(occupant) && old(occupant)[slot] == id && layout[slot].position == 1;
      r := Ok(ReleasedFrom(id));
    }
  }

  /** Releasing the same pallet twice: the second call finds no slot. */
  method ReleaseTwice(store: Store, id: int) returns (first: Result, second: Result)
    requires store.Valid()
    modifies store
    ensures store.Valid()
    ensures first.Ok? ==> second == Err(NotAssigned(id))
    ensures first.Err? ==> second == first && store.occupant == old(store.occupant)
  {
    first := store.Release(Some(id));
    second := store.Release(Some(id));
  }
}
