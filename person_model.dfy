/**
 * The person record: an owner holding an ordered list of address fragments.
 * It creates fragments at the end of the list with position-based ids,
 * removes them (renumbering the survivors' positions but not their ids),
 * reports itself dirty when any fragment is, and sorts them by position.
 */
module PersonModel {
  import opened Wrappers
  import opened JsValues
  import opened FragmentId
  import opened StableSort
  import opened AddressModel

  /**
   * The `properties` given to `createAddress`, spread over the defaults:
   * `None` is a key the caller did not supply, `Some(v)` one it did (even
   * when `v` is null or undefined).
   */
  datatype Properties = Properties(
    id: Option<string>,
    street: Option<Value>,
    city: Option<Value>,
    state: Option<Value>,
    zip: Option<Value>,
    position: Option<Option<int>>,
    parentType: Option<Value>,
    parentId: Option<Value>,
    key: Option<Value>)

  /** `properties = {}`. */
  const NoProperties := Properties(None, None, None, None, None, None, None, None, None)

  /** The value after the spread: the caller's when supplied, else the default. */
  function Spread<T>(given: Option<T>, default: T): T
  {
    match given
    case Some(v) => v
    case None => default
  }

  /** The id `createAddress` gives the address it creates at `position`. */
  function NewAddressId(ownerId: Value, position: nat, props: Properties): string
  {
    Spread(props.id, GenerateFragmentId(OwnerType, ownerId, AddressesKey, position))
  }

  /** The attributes `createAddress` gives the address it creates at `position`. */
  function NewAddressAttrs(ownerId: Value, position: nat, props: Properties): (a: AddressAttrs)
    ensures props == NoProperties ==>
      && a.position == Some(position) && SortKey(a) == position
      && GetParentIdentifier(a) == Some(ParentIdentifier(Str(OwnerType), ownerId, Str(AddressesKey)))
      && a.street.Undefined? && a.city.Undefined? && a.state.Undefined? && a.zip.Undefined?
  {
    AddressAttrs(
      Spread(props.street, Undefined), Spread(props.city, Undefined),
      Spread(props.state, Undefined), Spread(props.zip, Undefined),
      Spread(props.position, Some(position)),
      Spread(props.parentType, Str(OwnerType)),
      Spread(props.parentId, ownerId),
      Spread(props.key, Str(AddressesKey)))
  }

  /** No address object occurs twice in the list. */
  ghost predicate Distinct(s: seq<Address>)
  {
    forall i, j :: 0 <= i < j < |s| ==> s[i] != s[j]
  }

  /** `removeObject(a)`: the list without any occurrence of `a`, order kept. */
  function Without(s: seq<Address>, a: Address): (r: seq<Address>)
    ensures a !in r
    ensures forall i :: 0 <= i < |r| ==> r[i] in s
    ensures forall i :: 0 <= i < |s| && s[i] != a ==> s[i] in r
    ensures a !in s ==> r == s
  {
    if s == [] then []
    else if s[0] == a then Without(s[1..], a)
    else [s[0]] + Without(s[1..], a)
  }

  /** Removing from a list without repeats leaves one without repeats, one shorter when `a` was there. */
  lemma {:induction false} WithoutDistinct(s: seq<Address>, a: Address)
    requires Distinct(s)
    ensures Distinct(Without(s, a))
    ensures a in s ==> |Without(s, a)| == |s| - 1
  {
    if s != [] {
      WithoutDistinct(s[1..], a);
      if s[0] != a {
        assert s[0] !in s[1..];
      }
    }
  }

  /**
   * In a list without repeats, removing the element at `k` leaves the
   * elements before and after it, in their order.
   */
  lemma {:induction false} WithoutAt(s: seq<Address>, k: nat)
    requires Distinct(s) && k < |s|
    ensures Without(s, s[k]) == s[..k] + s[k + 1..]
  {
    var pre, post := s[..k], s[k + 1..];
    assert s == pre + [s[k]] + post;
    assert s[k] !in pre by {
      forall i | 0 <= i < |pre| ensures pre[i] != s[k] {
        assert pre[i] == s[i];
      }
    }
    assert s[k] !in post by {
      forall i | 0 <= i < |post| ensures post[i] != s[k] {
        assert post[i] == s[k + 1 + i];
      }
    }
    WithoutAround(pre, s[k], post);
  }

  /** Removing `x` from `pre + [x] + post`, where `x` occurs only once, leaves `pre + post`. */
  lemma {:induction false} WithoutAround(pre: seq<Address>, x: Address, post: seq<Address>)
    requires x !in pre && x !in post
    ensures Without(pre + [x] + post, x) == pre + post
  {
    var s := pre + [x] + post;
    if pre == [] {
      assert s == [x] + post && s[1..] == post;
      assert Without(s, x) == Without(post, x);
    } else {
      assert s[0] == pre[0] && s[1..] == pre[1..] + [x] + post;
      assert pre[0] != x;
      assert Without(s, x) == [pre[0]] + Without(pre[1..] + [x] + post, x);
      WithoutAround(pre[1..], x, post);
      ConsAppend(pre, post);
    }
  }

  /** Putting the head back in front of `tail + post` rebuilds `pre + post`. */
  lemma ConsAppend(pre: seq<Address>, post: seq<Address>)
    requires pre != []
    ensures [pre[0]] + (pre[1..] + post) == pre + post
  {
    assert pre == [pre[0]] + pre[1..];
  }

  /** Some address in `s` is dirty. */
  predicate AnyDirty(s: seq<Address>)
    reads s
    ensures AnyDirty(s) <==> exists i :: 0 <= i < |s| && s[i].HasDirtyAttributes()
  {
    s != [] && (s[0].HasDirtyAttributes() || AnyDirty(s[1..]))
  }

  class Person {
    const id: Value
    /** The person's own attributes differ from the server's (`super.hasDirtyAttributes`). */
    var ownDirty: bool
    /** The `addresses` relationship, in list order. */
    var addresses: seq<Address>

    /** A relationship never holds the same record twice. */
    ghost predicate Valid()
      reads this
    {
      Distinct(addresses)
    }

    constructor (id: Value, ownDirty: bool)
      ensures this.id == id && this.ownDirty == ownDirty && addresses == []
      ensures Valid()
    {
      this.id := id;
      this.ownDirty := ownDirty;
      this.addresses := [];
    }

    /** `hasDirtyAttributes`: the person's own attributes, or any address, are dirty. */
    predicate HasDirtyAttributes()
      reads this, addresses
      ensures HasDirtyAttributes() <==>
        ownDirty || exists i :: 0 <= i < |addresses| && addresses[i].HasDirtyAttributes()
    {
      ownDirty || AnyDirty(addresses)
    }

    /**
     * `sortedAddresses`: the addresses ordered by `__fragmentPosition`
     * (null and undefined first), equal positions in list order.
     */
    function SortedAddresses(): (r: seq<Address>)
      reads this, addresses
      ensures multiset(r) == multiset(addresses)
      ensures forall i, j :: 0 <= i < j < |r| ==> KeyLe(r[i].attrs.position, r[j].attrs.position)
    {
      var positions := map x | x in addresses :: x.attrs.position;
      var key := (x: Address) => if x in positions then positions[x] else None;
      SortPermutes(addresses, key);
      SortSorts(addresses, key);
      var r := Sort(addresses, key);
      forall i | 0 <= i < |r|
        ensures r[i] in addresses && key(r[i]) == r[i].attrs.position
      {
        assert r[i] in multiset(r);
      }
      r
    }

    /**
     * The ids and positions are those `createAddress` gives: the address at
     * index `i` has position `i` and the id generated for `i`.
     */
    ghost predicate IdsFollowPositions()
      reads this, addresses
    {
      forall i :: 0 <= i < |addresses| ==>
        addresses[i].id == GenerateFragmentId(OwnerType, id, AddressesKey, i)
        && addresses[i].attrs.position == Some(i)
    }

    /**
     * `createAddress(properties)`: a new address at position
     * `addresses.length`, appended to the list.
     */
    method CreateAddress(props: Properties) returns (a: Address)
      requires Valid()
      modifies this
      ensures Valid() && fresh(a)
      ensures addresses == old(addresses) + [a]
      ensures a.id == NewAddressId(id, |old(addresses)|, props)
      ensures a.attrs == NewAddressAttrs(id, |old(addresses)|, props)
      ensures a.isNew && !a.isDeleted && a.HasDirtyAttributes()
      ensures ownDirty == old(ownDirty)
    {
      var position := |addresses|;
      var newId := NewAddressId(id, position, props);
      a := new Address.Create(newId, NewAddressAttrs(id, position, props));
      addresses := addresses + [a];
    }

    /**
     * `removeAddress(address)`: takes the address out of the list, marks it
     * deleted and sets every remaining address's position to its index.
     * Ids are left as they were.
     */
    method RemoveAddress(address: Address)
      requires Valid()
      modifies this, address, addresses
      ensures Valid()
      ensures addresses == Without(old(addresses), address)
      ensures address in old(addresses) ==> |addresses| == |old(addresses)| - 1
      ensures address.isDeleted && address.attrs == old(address.attrs)
      ensures forall i :: 0 <= i < |addresses| ==>
        var x := addresses[i]; x.attrs == old(x.attrs).(position := Some(i))
      ensures forall x :: x in old(addresses) ==>
        x.isNew == old(x.isNew) && x.canonical == old(x.canonical) && (x != address ==> x.isDeleted == old(x.isDeleted))
      ensures ownDirty == old(ownDirty)
    {
      WithoutDistinct(addresses, address);
      addresses := Without(addresses, address);
      var kept := addresses;
      address.DeleteRecord();
      assert forall i :: 0 <= i < |kept| ==> kept[i].attrs == old(kept[i].attrs);
      Renumber(kept);
    }
  }

  /** The `forEach` of `removeAddress`: every address's position becomes its index. */
  method Renumber(list: seq<Address>)
    requires Distinct(list)
    modifies list
    ensures forall i :: 0 <= i < |list| ==> list[i].attrs == old(list[i].attrs).(position := Some(i))
    ensures forall x :: x in list ==>
      x.isNew == old(x.isNew) && x.canonical == old(x.canonical) && x.isDeleted == old(x.isDeleted)
  {
    var i := 0;
    while i < |list|
      invariant 0 <= i <= |list|
      invariant forall k :: 0 <= k < |list| ==>
        list[k].attrs == if k < i then old(list[k].attrs).(position := Some(k)) else old(list[k].attrs)
      invariant forall x :: x in list ==>
        x.isNew == old(x.isNew) && x.canonical == old(x.canonical) && x.isDeleted == old(x.isDeleted)
    {
      var x := list[i];
      x.SetAttrs(x.attrs.(position := Some(i)));
      i := i + 1;
    }
  }

  /**
   * `createAddress()` without properties keeps ids following positions, so
   * from a fresh person every history made only of creations does.
   */
  twostate lemma CreateKeepsIdsFollowingPositions(p: Person, new a: Address)
    requires old(p.IdsFollowPositions())
    requires p.addresses == old(p.addresses) + [a]
    requires forall x :: x in old(p.addresses) ==> unchanged(x)
    requires a.id == NewAddressId(p.id, |old(p.addresses)|, NoProperties)
    requires a.attrs == NewAddressAttrs(p.id, |old(p.addresses)|, NoProperties)
    ensures p.IdsFollowPositions()
  {
    forall i | 0 <= i < |p.addresses| - 1
      ensures p.addresses[i].id == GenerateFragmentId(OwnerType, p.id, AddressesKey, i)
      ensures p.addresses[i].attrs.position == Some(i)
    {
      var x := p.addresses[i];
      assert x == old(p.addresses)[i] && x in old(p.addresses);
      assert old(x.attrs) == x.attrs;
    }
  }

  /**
   * `n` calls of `createAddress()` on a new person: ids follow positions
   * all along, so the `n` ids are pairwise distinct.
   */
  method CreateOnly(ownerId: Value, n: nat) returns (p: Person)
    ensures fresh(p) && p.Valid() && p.id == ownerId && |p.addresses| == n
    ensures p.IdsFollowPositions()
    ensures forall i, j :: 0 <= i < j < n ==> p.addresses[i].id != p.addresses[j].id
  {
    p := new Person(ownerId, false);
    var k := 0;
    while k < n
      invariant 0 <= k <= n
      invariant fresh(p) && p.Valid() && p.id == ownerId && |p.addresses| == k
      invariant p.IdsFollowPositions()
    {
      label before:
      var a := p.CreateAddress(NoProperties);
      CreateKeepsIdsFollowingPositions@before(p, a);
      k := k + 1;
    }
    forall i, j | 0 <= i < j < n
      ensures p.addresses[i].id != p.addresses[j].id
    {
      IdsDistinctWhenFollowingPositions(p, i, j);
    }
  }

  /** In a list whose ids follow positions, ids are pairwise distinct. */
  lemma IdsDistinctWhenFollowingPositions(p: Person, i: nat, j: nat)
    requires p.IdsFollowPositions()
    requires i < |p.addresses| && j < |p.addresses| && i != j
    ensures p.addresses[i].id != p.addresses[j].id
  {
    if p.addresses[i].id == p.addresses[j].id {
      GenerateInjectiveInPosition(OwnerType, p.id, AddressesKey, i, j, Null);
    }
  }

  /**
   * Create three addresses, remove the middle one and create another: the
   * new address gets the id the third one still holds. That id is the one
   * generated for position 2 (which names position 2, by
   * `ParsedGeneratedPosition`) while the third address now sits at 1.
   */
  method IdReuseAfterRemoval(ownerId: Value) returns (p: Person, third: Address, fourth: Address)
    ensures p.id == ownerId
    ensures third in p.addresses && fourth in p.addresses && third != fourth
    ensures third.id == fourth.id && third.id == NewAddressId(ownerId, 2, NoProperties)
    ensures third.attrs.position == Some(1) && fourth.attrs.position == Some(2)
  {
    var first, second;
    p, first, second, third := CreateThree(ownerId);
    p.RemoveAddress(second);
    WithoutMiddle(first, second, third);
    assert p.addresses == [first, third] && p.addresses[1] == third;
    assert third.attrs.position == Some(1);
    fourth := p.CreateAddress(NoProperties);
    assert p.addresses == [first, third, fourth];
  }

  /** A fresh person given three addresses by `createAddress()`. */
  method CreateThree(ownerId: Value) returns (p: Person, first: Address, second: Address, third: Address)
    ensures fresh(p) && fresh(first) && fresh(second) && fresh(third)
    ensures p.Valid() && p.addresses == [first, second, third]
    ensures third.id == NewAddressId(ownerId, 2, NoProperties) && p.id == ownerId
  {
    p := new Person(ownerId, false);
    first := p.CreateAddress(NoProperties);
    second := p.CreateAddress(NoProperties);
    third := p.CreateAddress(NoProperties);
  }

  /** The id `createAddress` generates at a position names that position. */
  lemma ParsedGeneratedPosition(ownerId: string, position: nat)
    requires IsSegment(ownerId)
    ensures var r := ParseFragmentId(NewAddressId(Str(ownerId), position, NoProperties));
      r.Success? && r.value.position == Some(position)
  {
    assert IsSegment(OwnerType) && IsSegment(AddressesKey);
    ParseGenerated(OwnerType, Str(ownerId), AddressesKey, position, Null);
  }

  lemma WithoutMiddle(a: Address, b: Address, c: Address)
    requires a != b && c != b
    ensures Without([a, b, c], b) == [a, c]
  {
    assert [a, b, c][1..] == [b, c];
    assert [b, c][1..] == [c];
    assert [c][1..] == [];
  }

  /**
   * Removing the last address of a clean person whose positions are their
   * indices leaves the person reporting no dirty attributes: the deleted
   * address has left the list and the survivors' positions are unchanged.
   */
  method RemovalOfLastIsInvisible(p: Person) returns (removed: Address)
    requires p.Valid() && p.addresses != [] && !p.HasDirtyAttributes()
    requires forall i :: 0 <= i < |p.addresses| ==> p.addresses[i].attrs.position == Some(i)
    modifies p, p.addresses
    ensures removed == old(p.addresses[|p.addresses| - 1])
    ensures p.addresses == old(p.addresses[..|p.addresses| - 1])
    ensures removed.isDeleted && removed !in p.addresses
    ensures !p.HasDirtyAttributes()
  {
    removed := p.addresses[|p.addresses| - 1];
    ghost var before := p.addresses;
    WithoutAt(before, |before| - 1);
    assert before[..|before| - 1] + before[|before|..] == before[..|before| - 1];
    p.RemoveAddress(removed);
    forall i | 0 <= i < |p.addresses|
      ensures !p.addresses[i].HasDirtyAttributes()
    {
      var x := p.addresses[i];
      assert x == before[i] && x in before;
      assert !old(x.HasDirtyAttributes());
    }
  }

}
