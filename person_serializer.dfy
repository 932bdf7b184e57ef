/**
 * The person serializer: the conversion boundary between the nested wire
 * shape (`addresses` as a plain array of objects) and the store's flat shape
 * (one address record per element, with a synthetic id, and an ordered list
 * of those ids as the person's relationship).
 */
module PersonSerializer {
  import opened Wrappers
  import opened JsText
  import opened JsValues
  import opened FragmentId
  import opened StableSort
  import opened AddressModel

  /** A resource object `{type, id, attributes}` handed to the store. */
  datatype Resource = Resource(resourceType: string, id: string, attributes: AddressAttrs)

  /**
   * The fragment record built for element `elem` at `index`: the four domain
   * attributes read from the element and the metadata naming the slot.
   */
  function FragmentResource(parentId: Value, index: nat, elem: Value): (r: Resource)
    requires !IsNullish(elem)
    ensures r.resourceType == AddressType && IsFragmentId(Str(r.id))
    ensures r.attributes.position == Some(index) && SortKey(r.attributes) == index
    ensures GetParentIdentifier(r.attributes) == Some(ParentIdentifier(Str(OwnerType), parentId, Str(AddressesKey)))
    ensures r.attributes.street == Property(elem, "street") && r.attributes.city == Property(elem, "city")
      && r.attributes.state == Property(elem, "state") && r.attributes.zip == Property(elem, "zip")
  {
    Resource(
      AddressType,
      GenerateFragmentId(OwnerType, parentId, AddressesKey, index),
      AddressAttrs(
        Property(elem, "street"), Property(elem, "city"), Property(elem, "state"), Property(elem, "zip"),
        Some(index), Str(OwnerType), parentId, Str(AddressesKey)))
  }

  /** The elements of `addresses` when it is an array, none otherwise. */
  function AddressItems(payload: map<string, Value>): seq<Value>
  {
    var addresses := Lookup(payload, AddressesKey);
    if Truthy(addresses) && addresses.Arr? then addresses.items else []
  }

  /** No element is null or undefined, so every property read succeeds. */
  predicate AllReadable(items: seq<Value>)
  {
    forall i :: 0 <= i < |items| ==> !IsNullish(items[i])
  }

  /** How many leading elements can be read before a null or undefined one. */
  function ReadableCount(items: seq<Value>): (n: nat)
    ensures n <= |items| && AllReadable(items[..n])
    ensures n < |items| ==> IsNullish(items[n])
    ensures n == |items| <==> AllReadable(items)
  {
    if items == [] || IsNullish(items[0]) then 0
    else
      var n := 1 + ReadableCount(items[1..]);
      assert forall i :: 1 <= i < n ==> items[..n][i] == items[1..][..n - 1][i - 1];
      n
  }

  /** The fragment records for `items`, index-keyed under the owner `parentId`. */
  function Fragments(parentId: Value, items: seq<Value>): (r: seq<Resource>)
    requires AllReadable(items)
    ensures |r| == |items|
  {
    seq(|items|, i requires 0 <= i < |items| => FragmentResource(parentId, i, items[i]))
  }

  function Ids(rs: seq<Resource>): seq<Value>
  {
    seq(|rs|, i requires 0 <= i < |rs| => Str(rs[i].id))
  }

  function AttributesOf(rs: seq<Resource>): seq<AddressAttrs>
  {
    seq(|rs|, i requires 0 <= i < |rs| => rs[i].attributes)
  }

  // ---- normalizeResponse ----------------------------------------------

  /** `String(payload.id || id)`. */
  function RecordId(payload: map<string, Value>, id: Value): (r: string)
    ensures Lookup(payload, "id").Str? && Lookup(payload, "id").s != [] ==> r == Lookup(payload, "id").s
    ensures !Truthy(Lookup(payload, "id")) ==> r == ToJsString(id)
    ensures Lookup(payload, "id").Num? && Lookup(payload, "id").n != 0 ==> r == IntToDecimal(Lookup(payload, "id").n)
    ensures Lookup(payload, "id") == Bool(true) ==> r == "true"
  {
    var payloadId := Lookup(payload, "id");
    ToJsString(if Truthy(payloadId) then payloadId else id)
  }

  const PropertyReadError: string := "TypeError: cannot read properties of null or undefined"

  /**
   * What `normalizeResponse` hands on: the modified payload given to the
   * base serializer, and the `included` list it attaches (absent when there
   * were no addresses).
   */
  datatype Normalized = Normalized(payload: map<string, Value>, included: Option<seq<Resource>>)

  /** The payload handed to the base serializer: the record id made a string, `addresses` replaced by the fragment ids. */
  function Rewritten(payload: map<string, Value>, recordId: string, addressIds: seq<Value>): (r: map<string, Value>)
    ensures r.Keys == payload.Keys + {"id", AddressesKey}
    ensures forall k :: k in payload && k != "id" && k != AddressesKey ==> r[k] == payload[k]
    ensures r["id"] == Str(recordId) && r[AddressesKey] == Arr(addressIds)
  {
    payload["id" := Str(recordId)][AddressesKey := Arr(addressIds)]
  }

  /** The result of `normalizeResponse`, as a function of its inputs. */
  function NormalizeResponseResult(payload: map<string, Value>, id: Value): Result<Normalized>
  {
    var recordId := RecordId(payload, id);
    var items := AddressItems(payload);
    if !AllReadable(items) then Failure(PropertyReadError)
    else
      var included := Fragments(Str(recordId), items);
      Success(Normalized(
        Rewritten(payload, recordId, Ids(included)),
        if |included| > 0 then Some(included) else None))
  }

  /** The store, reduced to the log of what was pushed into it. */
  class Store {
    var pushed: seq<Resource>

    constructor ()
      ensures pushed == []
    {
      pushed := [];
    }

    /** `store.push({data})`. */
    method Push(data: Resource)
      modifies this
      ensures pushed == old(pushed) + [data]
    {
      pushed := pushed + [data];
    }
  }

  /**
   * The `forEach` of `normalizeResponse`: pushes one fragment per element,
   * in order, and stops at the first null or undefined element (where the
   * property read throws), reporting whether it got through them all.
   */
  method PushFragments(store: Store, parentId: Value, items: seq<Value>)
    returns (included: seq<Resource>, addressIds: seq<Value>, complete: bool)
    modifies store
    ensures complete <==> AllReadable(items)
    ensures complete ==> included == Fragments(parentId, items) && addressIds == Ids(included)
    ensures store.pushed == old(store.pushed) + Fragments(parentId, items[..ReadableCount(items)])
  {
    included, addressIds := [], [];
    ghost var count := ReadableCount(items);
    var i := 0;
    while i < |items|
      invariant 0 <= i <= count
      invariant included == Fragments(parentId, items[..i])
      invariant addressIds == Ids(included)
      invariant store.pushed == old(store.pushed) + included
    {
      if IsNullish(items[i]) {
        assert i == count;
        return included, addressIds, false;
      }
      var fragment := FragmentResource(parentId, i, items[i]);
      store.Push(fragment);
      ReadablePrefix(items, i);
      ReadablePrefix(items, i + 1);
      FragmentsExtend(parentId, items, i);
      IdsExtend(included, fragment);
      included := included + [fragment];
      addressIds := addressIds + [Str(fragment.id)];
      i := i + 1;
    }
    assert items[..i] == items;
    complete := true;
  }

  /** Within the readable prefix, one more element adds one fragment. */
  lemma FragmentsExtend(parentId: Value, items: seq<Value>, i: nat)
    requires i < |items| && AllReadable(items[..i]) && AllReadable(items[..i + 1])
    ensures !IsNullish(items[i])
    ensures Fragments(parentId, items[..i + 1]) == Fragments(parentId, items[..i]) + [FragmentResource(parentId, i, items[i])]
  {
    assert items[..i + 1][i] == items[i];
    var a := Fragments(parentId, items[..i + 1]);
    var b := Fragments(parentId, items[..i]) + [FragmentResource(parentId, i, items[i])];
    forall k | 0 <= k < |a|
      ensures a[k] == b[k]
    {
      if k < i {
        assert items[..i + 1][k] == items[..i][k];
      }
    }
  }

  lemma ReadablePrefix(items: seq<Value>, j: nat)
    requires j <= ReadableCount(items)
    ensures AllReadable(items[..j])
  {
    var n := ReadableCount(items);
    forall k | 0 <= k < j
      ensures !IsNullish(items[..j][k])
    {
      assert items[..j][k] == items[..n][k];
    }
  }

  lemma IdsExtend(rs: seq<Resource>, r: Resource)
    ensures Ids(rs + [r]) == Ids(rs) + [Str(r.id)]
  {
  }

  /**
   * `normalizeResponse`: one fragment per element, pushed into the store in
   * order; an element that is null or undefined throws after the elements
   * before it were pushed.
   */
  method NormalizeResponse(store: Store, payload: map<string, Value>, id: Value) returns (r: Result<Normalized>)
    modifies store
    ensures r == NormalizeResponseResult(payload, id)
    ensures var items := AddressItems(payload);
            store.pushed == old(store.pushed) + Fragments(Str(RecordId(payload, id)), items[..ReadableCount(items)])
  {
    var recordId := RecordId(payload, id);
    var included: seq<Resource> := [];
    var addressIds: seq<Value> := [];
    var addresses := Lookup(payload, AddressesKey);
    if Truthy(addresses) && addresses.Arr? {
      var complete;
      included, addressIds, complete := PushFragments(store, Str(recordId), addresses.items);
      if !complete {
        return Failure(PropertyReadError);
      }
    } else {
      assert AddressItems(payload) == [] && Fragments(Str(recordId), []) == [] && Ids([]) == [];
    }
    r := Success(Normalized(Rewritten(payload, recordId, addressIds), if |included| > 0 then Some(included) else None));
  }

  // ---- normalize ------------------------------------------------------

  /** A position attribute as stored in a plain object. */
  function PositionValue(p: Option<int>): Value
  {
    match p
    case Some(n) => Num(n)
    case None => Null
  }

  /** A resource written as the plain object `normalize` stores back into the hash. */
  function ResourceValue(res: Resource): Value
  {
    var a := res.attributes;
    Obj(map[
      "id" := Str(res.id),
      "type" := Str(res.resourceType),
      "attributes" := Obj(map[
        "street" := a.street, "city" := a.city, "state" := a.state, "zip" := a.zip,
        "__fragmentPosition" := PositionValue(a.position),
        "__fragmentParentType" := a.parentType,
        "__fragmentParentId" := a.parentId,
        "__fragmentKey" := a.key])])
  }

  /**
   * `normalize`: rewrites `hash.addresses` into fragment resources keyed by
   * `hash.id` as it stands (not stringified), before the base serializer
   * runs.
   */
  function Normalize(hash: map<string, Value>): (r: Result<map<string, Value>>)
    ensures r.Success? ==> r.value.Keys == hash.Keys
    ensures r.Success? ==> forall k :: k in hash && k != AddressesKey ==> r.value[k] == hash[k]
    ensures r.Failure? <==> !AllReadable(AddressItems(hash))
  {
    var items := AddressItems(hash);
    if items == [] then Success(hash)
    else if !AllReadable(items) then Failure(PropertyReadError)
    else
      var fragments := Fragments(Lookup(hash, "id"), items);
      Success(hash[AddressesKey := Arr(seq(|fragments|, i requires 0 <= i < |fragments| => ResourceValue(fragments[i])))])
  }

  // ---- serialize ------------------------------------------------------

  /** The comparator's key: `__fragmentPosition || 0`, so null, undefined and 0 all read as 0. */
  function SerializeKey(a: AddressAttrs): (k: Key)
    ensures k.Some? && k.value == SortKey(a)
  {
    Some(match a.position case Some(p) => p case None => 0)
  }

  const WireKeys: set<string> := {"street", "city", "state", "zip"}

  /** The wire object for one address: its four domain attributes, nothing else. */
  function WireAddress(a: AddressAttrs): (v: Value)
    ensures v.Obj? && v.fields.Keys == WireKeys
  {
    Obj(map["street" := a.street, "city" := a.city, "state" := a.state, "zip" := a.zip])
  }

  function WireAddresses(s: seq<AddressAttrs>): (r: seq<Value>)
    ensures |r| == |s|
    ensures forall i :: 0 <= i < |r| ==> r[i].Obj? && r[i].fields.Keys == WireKeys
  {
    seq(|s|, i requires 0 <= i < |s| => WireAddress(s[i]))
  }

  /**
   * `serialize`: when the person has addresses, `json.addresses` becomes
   * their wire objects ordered by position; otherwise `json` is untouched.
   * The base serialization `json` and the relationship's snapshots
   * (`None` when the relationship is missing) are inputs.
   */
  function Serialize(json: map<string, Value>, addresses: Option<seq<AddressAttrs>>): (r: map<string, Value>)
    ensures addresses.None? || addresses.value == [] ==> r == json
    ensures addresses.Some? && addresses.value != [] ==>
      && r.Keys == json.Keys + {AddressesKey}
      && (forall k :: k in json && k != AddressesKey ==> r[k] == json[k])
      && r[AddressesKey].Arr? && |r[AddressesKey].items| == |addresses.value|
      && (forall i :: 0 <= i < |r[AddressesKey].items| ==>
            r[AddressesKey].items[i].Obj? && r[AddressesKey].items[i].fields.Keys == WireKeys)
  {
    if addresses.Some? && |addresses.value| > 0 then
      SortPermutes(addresses.value, SerializeKey);
      assert |multiset(Sort(addresses.value, SerializeKey))| == |multiset(addresses.value)|;
      json[AddressesKey := Arr(WireAddresses(Sort(addresses.value, SerializeKey)))]
    else json
  }

  // ---- properties -----------------------------------------------------

  /** Serialization emits the wire objects of a stable, position-ordered permutation of the addresses. */
  lemma SerializeOrdersByPosition(json: map<string, Value>, addresses: seq<AddressAttrs>)
    requires addresses != []
    ensures var sorted := Sort(addresses, SerializeKey);
      && Serialize(json, Some(addresses))[AddressesKey] == Arr(WireAddresses(sorted))
      && multiset(sorted) == multiset(addresses)
      && SortedBy(sorted, SerializeKey)
      && (forall k :: WithKey(sorted, SerializeKey, k) == WithKey(addresses, SerializeKey, k))
  {
    var sorted := Sort(addresses, SerializeKey);
    SortPermutes(addresses, SerializeKey);
    SortSorts(addresses, SerializeKey);
    forall k
      ensures WithKey(sorted, SerializeKey, k) == WithKey(addresses, SerializeKey, k)
    {
      SortStable(addresses, SerializeKey, k);
    }
  }

  /** Addresses whose positions are their indices serialize in list order. */
  lemma SerializeContiguous(json: map<string, Value>, addresses: seq<AddressAttrs>)
    requires addresses != []
    requires forall i :: 0 <= i < |addresses| ==> addresses[i].position == Some(i)
    ensures Serialize(json, Some(addresses))[AddressesKey] == Arr(WireAddresses(addresses))
  {
    assert SortedBy(addresses, SerializeKey);
    SortKeepsSorted(addresses, SerializeKey);
  }

  /** The wire object of an incoming element: its four fields, read as `normalize` reads them. */
  function WireElement(elem: Value): Value
    requires !IsNullish(elem)
  {
    Obj(map["street" := Property(elem, "street"), "city" := Property(elem, "city"),
            "state" := Property(elem, "state"), "zip" := Property(elem, "zip")])
  }

  /**
   * Round trip: serializing the records `normalizeResponse` produced gives
   * back each element's four fields in the original order.
   */
  lemma SerializeNormalized(payload: map<string, Value>, id: Value, json: map<string, Value>)
    requires AllReadable(AddressItems(payload)) && AddressItems(payload) != []
    ensures var items := AddressItems(payload);
      && NormalizeResponseResult(payload, id).Success?
      && NormalizeResponseResult(payload, id).value.included.Some?
      && Serialize(json, Some(AttributesOf(NormalizeResponseResult(payload, id).value.included.value)))[AddressesKey]
         == Arr(seq(|items|, i requires 0 <= i < |items| => WireElement(items[i])))
  {
    var items := AddressItems(payload);
    var included := Fragments(Str(RecordId(payload, id)), items);
    var attrs := AttributesOf(included);
    SerializeContiguous(json, attrs);
    assert WireAddresses(attrs) == seq(|items|, i requires 0 <= i < |items| => WireElement(items[i]));
  }

  /** When every element is an object holding exactly the four wire fields, the round trip is the identity. */
  lemma SerializeNormalizedExact(payload: map<string, Value>, id: Value, json: map<string, Value>)
    requires AddressItems(payload) != []
    requires forall i :: 0 <= i < |AddressItems(payload)| ==>
      AddressItems(payload)[i].Obj? && AddressItems(payload)[i].fields.Keys == WireKeys
    ensures NormalizeResponseResult(payload, id).Success?
    ensures NormalizeResponseResult(payload, id).value.included.Some?
    ensures Serialize(json, Some(AttributesOf(NormalizeResponseResult(payload, id).value.included.value)))[AddressesKey]
      == Lookup(payload, AddressesKey)
  {
    var items := AddressItems(payload);
    SerializeNormalized(payload, id, json);
    forall i | 0 <= i < |items|
      ensures WireElement(items[i]) == items[i]
    {
      var f := items[i].fields;
      assert WireElement(items[i]).fields == f;
    }
    assert seq(|items|, i requires 0 <= i < |items| => WireElement(items[i])) == items;
  }

  /** All ids from one normalization are pairwise distinct, whatever the owner id. */
  lemma FragmentIdsDistinct(parentId: Value, items: seq<Value>, i: nat, j: nat)
    requires AllReadable(items) && i < |items| && j < |items| && i != j
    ensures Fragments(parentId, items)[i].id != Fragments(parentId, items)[j].id
  {
    if Fragments(parentId, items)[i].id == Fragments(parentId, items)[j].id {
      GenerateInjectiveInPosition(OwnerType, parentId, AddressesKey, i, j, Null);
    }
  }

  /**
   * Ids depend only on owner and index: the element at index `i` gets the
   * same id from `normalizeResponse` as from `normalize`, whatever its
   * contents, and an element moved to another index gets another id.
   */
  lemma IdsAreIndexKeyed(payload: map<string, Value>, id: Value, i: nat)
    requires AllReadable(AddressItems(payload)) && i < |AddressItems(payload)|
    requires Truthy(Lookup(payload, "id"))
    ensures NormalizeResponseResult(payload, id).Success? && Normalize(payload).Success?
    ensures var items := AddressItems(payload);
      && Normalize(payload).value[AddressesKey] == Arr(seq(|items|, k requires 0 <= k < |items| =>
           ResourceValue(Fragments(Lookup(payload, "id"), items)[k])))
      && NormalizeResponseResult(payload, id).value.payload[AddressesKey].items[i]
         == Str(GenerateFragmentId(OwnerType, Lookup(payload, "id"), AddressesKey, i))
      && Fragments(Lookup(payload, "id"), items)[i].id == GenerateFragmentId(OwnerType, Lookup(payload, "id"), AddressesKey, i)
  {
    var items := AddressItems(payload);
    var recordId := RecordId(payload, id);
    assert ToJsString(Str(recordId)) == ToJsString(Lookup(payload, "id"));
    assert IdParts(OwnerType, Str(recordId), AddressesKey, i, Null) == IdParts(OwnerType, Lookup(payload, "id"), AddressesKey, i, Null);
  }

  /**
   * The metadata of a normalized record agrees with its id: the parent
   * identifier names the parsed owner type, owner id and key, and the sort
   * key is the parsed position (until a removal renumbers it).
   */
  lemma MetadataMatchesId(recordId: string, index: nat, elem: Value)
    requires !IsNullish(elem) && IsSegment(recordId)
    ensures var r := FragmentResource(Str(recordId), index, elem);
      && ParseFragmentId(r.id) == Success(ParsedId(OwnerType, recordId, AddressesKey, Some(index), None))
      && GetParentIdentifier(r.attributes) == Some(ParentIdentifier(Str(OwnerType), Str(recordId), Str(AddressesKey)))
      && SortKey(r.attributes) == index
  {
    assert IsSegment(OwnerType) && IsSegment(AddressesKey);
    ParseGenerated(OwnerType, Str(recordId), AddressesKey, index, Null);
  }

  /**
   * The relationship and `included` run in parallel: one entry per element,
   * in input order, `included` attached only when there was an element.
   */
  lemma NormalizedShape(payload: map<string, Value>, id: Value)
    requires AllReadable(AddressItems(payload))
    ensures var items := AddressItems(payload);
      var n := NormalizeResponseResult(payload, id);
      && n.Success?
      && n.value.payload.Keys == payload.Keys + {"id", AddressesKey}
      && n.value.payload["id"] == Str(RecordId(payload, id))
      && (forall k :: k in payload && k != "id" && k != AddressesKey ==> n.value.payload[k] == payload[k])
      && n.value.payload[AddressesKey].Arr?
      && |n.value.payload[AddressesKey].items| == |items|
      && (n.value.included.Some? <==> items != [])
      && (n.value.included.Some? ==>
            forall i :: 0 <= i < |items| ==>
              n.value.payload[AddressesKey].items[i] == Str(n.value.included.value[i].id))
  {
  }
}
