/**
 * The address fragment record: four domain attributes, four metadata
 * attributes naming its slot and its owner, and the derived getters
 * `sortKey`, `isFragment` and `parentIdentifier`.
 */
module AddressModel {
  import opened Wrappers
  import opened JsValues

  /** The owner model, the relationship key and the fragment model of the person/address pair. */
  const OwnerType: string := "person-v2"
  const AddressesKey: string := "addresses"
  const AddressType: string := "address-v2"

  /**
   * The record's attributes. The domain attributes hold whatever value was
   * stored; `position` is the numeric `__fragmentPosition` (`None` for null
   * or undefined); the owner link is kept as plain metadata values.
   */
  datatype AddressAttrs = AddressAttrs(
    street: Value,
    city: Value,
    state: Value,
    zip: Value,
    position: Option<int>,
    parentType: Value,
    parentId: Value,
    key: Value)

  /** The attributes of a record nobody has set anything on. */
  const BlankAttrs := AddressAttrs(Undefined, Undefined, Undefined, Undefined, None, Undefined, Undefined, Undefined)

  /** `sortKey`: the position, or 0 when it is null or undefined. */
  function SortKey(a: AddressAttrs): (k: int)
    ensures a.position.Some? ==> k == a.position.value
    ensures a.position.None? ==> k == 0
  {
    match a.position
    case Some(p) => p
    case None => 0
  }

  /** `isFragment`: the record names an owner type. */
  predicate IsFragment(a: AddressAttrs)
    ensures IsFragment(a) <==> a.parentType != Null && a.parentType != Undefined
  {
    !IsNullish(a.parentType)
  }

  /** The `{type, id, key}` object `parentIdentifier` returns. */
  datatype ParentIdentifier = ParentIdentifier(parentType: Value, id: Value, key: Value)

  /** `parentIdentifier`: `None` (null) for a record that is not a fragment, else the owner link. */
  function GetParentIdentifier(a: AddressAttrs): (r: Option<ParentIdentifier>)
    ensures r.None? <==> !IsFragment(a)
    ensures r.Some? ==> r.value.parentType == a.parentType && r.value.id == a.parentId && r.value.key == a.key
    ensures r.Some? ==> !IsNullish(r.value.parentType)
  {
    if !IsFragment(a) then None else Some(ParentIdentifier(a.parentType, a.parentId, a.key))
  }

  /**
   * An address record held by the store. Its own dirtiness follows the
   * store's rule: a new record is dirty until it is deleted (a record that
   * was never saved and is then deleted is simply gone, hence clean); a
   * saved record is dirty once deleted, or when its attributes differ from
   * the last synchronised ones.
   */
  class Address {
    const id: string
    var attrs: AddressAttrs
    var canonical: AddressAttrs
    var isNew: bool
    var isDeleted: bool

    /** A record created on the client (`store.createRecord`). */
    constructor Create(id: string, attrs: AddressAttrs)
      ensures this.id == id && this.attrs == attrs
      ensures isNew && !isDeleted && canonical == BlankAttrs
    {
      this.id := id;
      this.attrs := attrs;
      this.canonical := BlankAttrs;
      this.isNew := true;
      this.isDeleted := false;
    }

    /** A record synchronised with the server, as one loaded from it: clean. */
    constructor Load(id: string, attrs: AddressAttrs)
      ensures this.id == id && this.attrs == attrs
      ensures !isNew && !isDeleted && canonical == attrs
      ensures !HasDirtyAttributes()
    {
      this.id := id;
      this.attrs := attrs;
      this.canonical := attrs;
      this.isNew := false;
      this.isDeleted := false;
    }

    /** `hasDirtyAttributes` of the record itself. */
    predicate HasDirtyAttributes()
      reads this
      ensures isNew ==> (HasDirtyAttributes() <==> !isDeleted)
      ensures !isNew && isDeleted ==> HasDirtyAttributes()
      ensures !isNew && !isDeleted ==> (HasDirtyAttributes() <==> attrs != canonical)
    {
      !(isNew && isDeleted) && (isNew || isDeleted || attrs != canonical)
    }

    /** `record.set(...)` of its attributes. */
    method SetAttrs(a: AddressAttrs)
      modifies this
      ensures attrs == a
      ensures canonical == old(canonical) && isNew == old(isNew) && isDeleted == old(isDeleted)
      ensures !(isNew && isDeleted) && a != canonical ==> HasDirtyAttributes()
    {
      attrs := a;
    }

    /**
     * `deleteRecord()`: marks the record deleted, which makes a saved record
     * dirty and a never-saved one clean.
     */
    method DeleteRecord()
      modifies this
      ensures isDeleted && (HasDirtyAttributes() <==> !old(isNew))
      ensures attrs == old(attrs) && canonical == old(canonical) && isNew == old(isNew)
    {
      isDeleted := true;
    }
  }
}
