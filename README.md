# Ordered fragment ids, modelled in Dafny

This project models the fragment-id scheme of `ember-data-model-fragments`. A
nested array element (a *fragment*, here an address of a person) becomes a
separate Ember Data record. Its synthetic id is built from its owner and its
index: `parentType:parentId:key:position`, with `:fragmentType` added for a
polymorphic fragment.

The model covers five parts:

- **The id codec** (`FragmentId`, with `JsText` and `JsValues` for the
  JavaScript built-ins it relies on). This is `generateFragmentId`,
  `parseFragmentId`, `isFragmentId` and the two getters. `split`, `join`,
  `String(x)` and `parseInt(s, 10)` are written out as functions.
  `parseInt`'s `NaN` is `None`.
- **The person serializer** (`PersonSerializer`).
  - `normalizeResponse` is a method. It pushes one fragment record per element
    into a `Store` (the store reduced to a log of pushed resources). It is
    proved against a specification function of the payload.
  - `normalize` rewrites the `addresses` of a hash.
  - `serialize` sorts the address snapshots by position and projects each one
    to its four wire fields.
- **The address record** (`AddressModel`). It has four domain attributes and
  four metadata attributes. Its getters are `sortKey`, `isFragment` and
  `parentIdentifier`. The record itself is a class with Ember Data's dirty
  rule. A record created on the client is dirty until it is deleted; once
  deleted, having never been saved, it is clean. A saved record is dirty once
  it is deleted, or when its attributes differ from the last synchronised
  ones.
- **The address serializer** (`AddressSerializer`). It deletes the four
  metadata keys and `id` from the base serialization. Its `attrs` table opts
  the metadata out.
- **The person record** (`PersonModel`). This is a class holding the ordered
  list of address records, with `createAddress`, `removeAddress`,
  `hasDirtyAttributes` and `sortedAddresses`.

`Array.prototype.sort` (stable since ECMAScript 2019) and Ember's `sortBy` are
modelled as one stable insertion sort (`StableSort`). The lemmas in that
module show that it permutes, orders and keeps equal keys in input order.

Two consequences of the scheme are exhibited rather than hidden:

- **Id reuse after a removal.** `removeAddress` renumbers positions but keeps
  ids. `createAddress` then takes `position = addresses.length` and can
  generate an id that a surviving sibling still holds.
  `PersonModel.IdReuseAfterRemoval` shows this: create three addresses, remove
  the middle one, create another. In the model, the third and fourth addresses
  share the id generated for position 2, while the third sits at position 1.
  Ids follow positions, and are therefore distinct, only along histories made of
  creations (`PersonModel.CreateOnly`, which applies
  `PersonModel.CreateKeepsIdsFollowingPositions` to every address
  `createAddress` returns, and `PersonModel.IdsDistinctWhenFollowingPositions`).
- **A removal the owner does not report.** Removing the last address of a
  clean person, whose positions are their indices, leaves every surviving
  position unchanged. The deleted record
  has left the list, so the person's `hasDirtyAttributes` stays false
  (`PersonModel.RemovalOfLastIsInvisible`).

## Model

| member | source | states |
|---|---|---|
| FragmentId.GenerateFragmentId | addon/utils/fragment-id.js:31-37 | every generated id classifies as a fragment id, whatever its components contain, `:` included |
| FragmentId.IsFragmentId | addon/utils/fragment-id.js:76-80 | a value is a fragment id exactly when it is a string with at least three `:` |
| FragmentId.ParseFragmentId | addon/utils/fragment-id.js:54-68 | parsing fails exactly when the id has fewer than three separators; otherwise the type, owner id and key are the id's first three segments (each followed by `:` they begin the id, and none holds a `:`); a type is reported only when the id has a fifth segment, and it is non-empty; field by field values are in `FragmentId.ParseJoin` |
| FragmentId.ParseJoin | addon/utils/fragment-id.js:54-68 | for every id, written as the join of its separator-free segments: the parse gives the first three segments, `parseInt` of the fourth as the position, and the fifth as the type when it exists and is non-empty, `null` otherwise |
| FragmentId.ParseAcceptsNaNPosition | addon/utils/fragment-id.js:57-66 | an id (of four or more segments) whose fourth segment has no digit after its white space and sign is not rejected: it parses, with `NaN` as the position |
| FragmentId.ParentIdFromFragment | addon/utils/fragment-id.js:88-91 | fails exactly on the ids `isFragmentId` rejects |
| FragmentId.ParentTypeFromFragment | addon/utils/fragment-id.js:99-102 | fails exactly on the ids `isFragmentId` rejects |
| FragmentId.ParseFailsIffNotFragmentId | addon/utils/fragment-id.js:54-80 | `parseFragmentId` throws exactly where `isFragmentId` is false |
| FragmentId.ParseGenerated | addon/utils/fragment-id.js:31-68 | round trip: with separator-free components, parsing a generated id returns the type, `String(parentId)`, the key, the position and the type read back (none when the type is falsy or empty) |
| FragmentId.GeneratedLayout | addon/utils/fragment-id.js:31-37 | a generated id is `parentType:String(parentId):key:` then `String(position)`, then `:fragmentType` only when the type is truthy |
| FragmentId.JoinSegments | addon/utils/fragment-id.js:32-36 | joining four or five segments with `:` spells them out with a separator between neighbours |
| FragmentId.GenerateInjectiveInPosition | addon/utils/fragment-id.js:31-37 | two positions that generate the same id under the same owner, key and type are equal, whatever the components contain |
| FragmentId.ParentIdOfGenerated | addon/utils/fragment-id.js:88-91 | the owner id read from a generated id is `String(parentId)` when the type and owner id carry no `:` |
| FragmentId.ParentTypeOfGenerated | addon/utils/fragment-id.js:99-102 | the owner type read from a generated id is the given type when it carries no `:` |
| FragmentId.ParseIgnoresExtraSegments | addon/utils/fragment-id.js:61-67 | segments after the fifth do not change the parse |
| JsText.Split | addon/utils/fragment-id.js:55 | `split(':')` yields one more piece than there are separators, and no piece contains one |
| JsText.Join | addon/utils/fragment-id.js:36 | `parts.join(':')`; its properties are stated by `JsText.SplitJoin`, `JsText.JoinSplit`, `JsText.SplitJoinLength` and `FragmentId.JoinSegments` |
| JsText.SplitJoin | addon/utils/fragment-id.js:36 | splitting a join of separator-free pieces gives the pieces back |
| JsText.JoinSplit | addon/utils/fragment-id.js:55 | joining the pieces of a split gives the string back |
| JsText.SplitJoinLength | addon/utils/fragment-id.js:36 | a join splits into at least as many pieces as were joined |
| JsText.TrimStart | addon/utils/fragment-id.js:65 | `parseInt` skips a leading run of white space: the result is the input with a prefix dropped, every dropped character is white space, and the result does not start with white space |
| JsText.ParseInt | addon/utils/fragment-id.js:65 | `parseInt(s, 10)` is a number exactly when, after white space and an optional sign, a digit follows, and `NaN` otherwise; without a `-` the number is not negative |
| JsText.ParseIntOfDecimal | addon/utils/fragment-id.js:65 | `parseInt(String(n), 10) == n` for every integer `n` |
| JsText.DecimalInjective | addon/utils/fragment-id.js:32 | distinct integers have distinct `String` spellings |
| JsText.IntToDecimal | addon/utils/fragment-id.js:32 | `String(position)` of an integer is a non-empty run of digits with a leading `-` exactly for a negative number; `JsText.ParseIntOfDecimal` and `JsText.DecimalInjective` state that it is read back and injective |
| JsValues.ToJsString | addon/utils/fragment-id.js:32 | `String(parentId)`: a string is kept as it is, a number is spelled in decimal, `true`/`false`, `"null"` and `"undefined"` for the remaining primitives |
| JsText.NatToDecimal | addon/utils/fragment-id.js:32 | `String(n)` of a non-negative integer is a non-empty run of digits with no leading zero |
| AddressModel.SortKey | tests/dummy/app/models/address-v2.js:31-33 | the position, or 0 when it is null or undefined |
| AddressModel.IsFragment | tests/dummy/app/models/address-v2.js:38-40 | a fragment exactly when the parent type is neither null nor undefined (the loose `!= null`) |
| AddressModel.GetParentIdentifier | tests/dummy/app/models/address-v2.js:45-52 | null exactly when the record is not a fragment; otherwise the parent type, parent id and key of the metadata |
| AddressModel.Address.Create | tests/dummy/app/models/person-v2.js:61-68 | a record created on the client holds the given id and attributes and is new, hence dirty |
| AddressModel.Address.Load | tests/dummy/app/models/person-v2.js:36 | a record whose attributes are the ones last synchronised with the server, neither new nor deleted, is not dirty (`super.hasDirtyAttributes` is false) |
| AddressModel.Address.HasDirtyAttributes | tests/dummy/app/models/person-v2.js:36 | a new record is dirty exactly while it is not deleted; a saved record is dirty when deleted, and otherwise exactly when its attributes differ from the synchronised ones |
| AddressModel.Address.DeleteRecord | tests/dummy/app/models/person-v2.js:88 | the record becomes deleted, and dirty exactly when it had been saved; its attributes are unchanged |
| AddressModel.Address.SetAttrs | tests/dummy/app/models/person-v2.js:92 | the attributes are replaced; a record that is not a deleted new one is dirty when they differ from the canonical ones |
| AddressSerializer.AttrsTableExcludesMetadata | tests/dummy/app/serializers/address-v2.js:12-17 | the table opts out exactly the four metadata attributes; `id` is not in it and is left to the explicit delete |
| AddressSerializer.Stripped | tests/dummy/app/serializers/address-v2.js:26-30 | the output holds exactly the keys of the input other than the four metadata keys and `id`, with their values |
| AddressSerializer.Serialize | tests/dummy/app/serializers/address-v2.js:22-33 | the five deletions leave the stripped map; no reserved key survives |
| AddressSerializer.StrippedIdempotent | tests/dummy/app/serializers/address-v2.js:26-30 | stripping an already stripped map changes nothing |
| PersonSerializer.RecordId | tests/dummy/app/serializers/person-v2.js:54 | `String(payload.id \|\| id)`: a non-empty string id from the payload is kept as it is; a non-zero number is spelled in decimal, `true` becomes `"true"`; a falsy one (missing, null, 0, empty) falls back to `String(id)` |
| PersonSerializer.Rewritten | tests/dummy/app/serializers/person-v2.js:91-95 | `{...payload, id: recordId, addresses: addressIds}`: every other key of the payload with its value, `id` the record id as a string and `addresses` the fragment ids |
| PersonSerializer.FragmentResource | tests/dummy/app/serializers/person-v2.js:62-77 | the record for the element at an index has type `address-v2`, an id that classifies as a fragment id, position and sort key equal to the index, the person under `addresses` as its owner, and the element's four fields |
| PersonSerializer.Store.Push | tests/dummy/app/serializers/person-v2.js:80 | the pushed record is appended to the store's log |
| PersonSerializer.ReadableCount | tests/dummy/app/serializers/person-v2.js:61-77 | the elements before the first null or undefined one, whose properties can be read; all of them when there is none |
| PersonSerializer.PushFragments | tests/dummy/app/serializers/person-v2.js:60-88 | one fragment per element is pushed in input order; on a null or undefined element it stops, having pushed the fragments before it; on success `included` and the id list are the fragments and their ids |
| PersonSerializer.NormalizeResponse | tests/dummy/app/serializers/person-v2.js:52-112 | the result is the specification function of the payload and id; the store log grows by the fragments of the readable prefix |
| PersonSerializer.NormalizedShape | tests/dummy/app/serializers/person-v2.js:54-109 | the payload handed on keeps every other key, has `id` = `String(payload.id \|\| id)` and one id per element in input order; `included` is attached exactly when there was an element, and its ids are the relationship's ids |
| PersonSerializer.MetadataMatchesId | tests/dummy/app/serializers/person-v2.js:62-75 | for a normalized record, parsing its id gives owner type, owner id, key and position; `parentIdentifier` names the same owner and `sortKey` is the same position |
| PersonSerializer.FragmentIdsDistinct | tests/dummy/app/serializers/person-v2.js:61-62 | the ids from one normalization are pairwise distinct |
| PersonSerializer.IdsAreIndexKeyed | tests/dummy/app/serializers/person-v2.js:19-62 | when `payload.id` is truthy, `normalize` and `normalizeResponse` give the element at index `i` the same id, generated from the owner id and `i` alone (without it they differ: `normalize` spells a missing owner id `undefined`) |
| PersonSerializer.Normalize | tests/dummy/app/serializers/person-v2.js:19-45 | only `addresses` may change; the call fails exactly when an address element is null or undefined |
| PersonSerializer.SerializeKey | tests/dummy/app/serializers/person-v2.js:131-132 | the comparator's key `__fragmentPosition \|\| 0` is always a number, and it is the record's `sortKey` |
| PersonSerializer.WireAddress | tests/dummy/app/serializers/person-v2.js:136-145 | a wire address object has exactly the keys `street`, `city`, `state` and `zip` |
| PersonSerializer.WireAddresses | tests/dummy/app/serializers/person-v2.js:136-145 | one wire object per snapshot, each with exactly the four wire keys |
| PersonSerializer.Serialize | tests/dummy/app/serializers/person-v2.js:119-149 | with no addresses the json is untouched; otherwise only `addresses` changes, to one object per address, each with exactly the four wire keys |
| PersonSerializer.SerializeOrdersByPosition | tests/dummy/app/serializers/person-v2.js:127-145 | the emitted objects are those of a permutation of the addresses, ascending by position (missing as 0), with equal positions in relationship order |
| PersonSerializer.SerializeContiguous | tests/dummy/app/serializers/person-v2.js:130-134 | addresses whose positions are their indices are emitted in list order |
| PersonSerializer.SerializeNormalized | tests/dummy/app/serializers/person-v2.js:64-145 | round trip: serializing the records normalization produced gives each element's four fields back, in input order |
| PersonSerializer.SerializeNormalizedExact | tests/dummy/app/serializers/person-v2.js:64-145 | when every element is an object with exactly the four fields, the round trip returns the original `addresses` array |
| StableSort.Sort | tests/dummy/app/serializers/person-v2.js:130-134 | the stable sort behind `addressArray.sort` and `sortBy` (models/person-v2.js:44) gives one element per input element; `StableSort.SortPermutes`, `StableSort.SortSorts`, `StableSort.SortStable` and `StableSort.SortKeepsSorted` state the rest |
| StableSort.SortPermutes | tests/dummy/app/serializers/person-v2.js:130-134 | the sort permutes its input |
| StableSort.SortSorts | tests/dummy/app/serializers/person-v2.js:130-134 | the sort orders its output by key |
| StableSort.SortStable | tests/dummy/app/serializers/person-v2.js:130-134 | elements with equal keys keep their relative order |
| StableSort.SortKeepsSorted | tests/dummy/app/serializers/person-v2.js:130-134 | an input already in key order is returned as it is |
| PersonModel.AnyDirty | tests/dummy/app/models/person-v2.js:34-36 | true exactly when some address in the list is dirty |
| PersonModel.Person.HasDirtyAttributes | tests/dummy/app/models/person-v2.js:28-37 | the person is dirty exactly when its own attributes are, or some address in its list is |
| PersonModel.Person.SortedAddresses | tests/dummy/app/models/person-v2.js:42-45 | a permutation of the addresses, ordered by position with null and undefined first |
| PersonModel.NewAddressAttrs | tests/dummy/app/models/person-v2.js:61-68 | without caller properties, a new address has position = the index it is created at, names the person as its owner under `addresses`, and has no domain attributes set |
| PersonModel.Person.CreateAddress | tests/dummy/app/models/person-v2.js:52-72 | the new record is appended after the existing ones, with position `addresses.length` before the append and the id generated for that position; caller properties, spread last, override any of these; the record is new |
| PersonModel.Without | tests/dummy/app/models/person-v2.js:85 | the list without the removed record, every other element kept |
| PersonModel.WithoutAt | tests/dummy/app/models/person-v2.js:85 | in a list without repeats, removing the element at an index leaves the elements before it and after it, in their order |
| PersonModel.WithoutAround | tests/dummy/app/models/person-v2.js:85 | removing a record that occurs once leaves the elements before it and after it, in their order |
| PersonModel.WithoutDistinct | tests/dummy/app/models/person-v2.js:85 | removing a record the list holds shortens it by one and keeps it free of repeats |
| PersonModel.Person.RemoveAddress | tests/dummy/app/models/person-v2.js:84-94 | the record leaves the list and is marked deleted; every remaining address's position becomes its index, in the same relative order; nothing else about them changes, ids included |
| PersonModel.Renumber | tests/dummy/app/models/person-v2.js:91-93 | each address's position is set to its index, nothing else |
| PersonModel.CreateKeepsIdsFollowingPositions | tests/dummy/app/models/person-v2.js:53-70 | a creation without properties keeps every address's id the one generated for its index, with position equal to that index |
| PersonModel.CreateOnly | tests/dummy/app/models/person-v2.js:52-72 | `n` calls of `createAddress()` on a new person leave `n` addresses whose ids follow their positions and are pairwise distinct (each step by `PersonModel.CreateKeepsIdsFollowingPositions`) |
| PersonModel.IdsDistinctWhenFollowingPositions | tests/dummy/app/models/person-v2.js:53-59 | while ids follow positions they are pairwise distinct |
| PersonModel.ParsedGeneratedPosition | tests/dummy/app/models/person-v2.js:59 | the id `createAddress` generates at a position parses back to that position |
| PersonModel.IdReuseAfterRemoval | tests/dummy/app/models/person-v2.js:53-93 | create three, remove the second, create one more: two addresses in the person's list share an id, the one generated for the person's id and position 2, while one of them sits at position 1 and the other at 2 |
| PersonModel.RemovalOfLastIsInvisible | tests/dummy/app/models/person-v2.js:28-94 | for any clean person whose positions are their indices, removing the last address leaves the list without it, the others in order, the removed record deleted, and the person not dirty |

## Left out

- The base `JSONSerializer` calls (`super.normalize`, `super.normalizeResponse`, `super.serialize`, `extractRelationships`) are library internals. The model returns what the source hands to them, and it takes `super.serialize`'s output and the relationship's snapshots as inputs.
- The Ember store is reduced to a few stand-ins. `store.push` is an append to a log. The store does not turn a pushed resource into a record here; `Address.Load` stands for the state such a record starts in, synchronised with the server and clean. `createRecord` is the `Address.Create` constructor. `deleteRecord` is a flag. Dirty detection uses the new and deleted flags and compares the attributes with the last synchronised ones; the store's other states (loading, saving, in flight) are not modelled. The person's own dirtiness is a boolean field.
- The store's check that `createRecord` is not given an id a live record already holds is not modelled (it lies in Ember Data, not in this repository). `Address.Create` accepts any id, so the shared id in `PersonModel.IdReuseAfterRemoval` is what the model derives from the source's id scheme; Ember Data's own duplicate-id check would apply at that point.
- The `hasMany` proxy is a sequence. `pushObject` appends to it, `removeObject` removes every occurrence, and a relationship never holds a record twice.
- Numbers are integers. Fractions, `NaN`, infinities and the precision limit of JavaScript numbers are not modelled. `parseInt` of a very long digit string returns the exact value here.
- PersonSerializer.SerializeKey collapses null and undefined to 0, as `|| 0` does; a `NaN` position cannot arise here.
- PersonModel.Person.SortedAddresses: collapses null and undefined into one "no position" key. Ember's `compare` orders undefined before null, and the contract does not distinguish the two. Its contract states permutation and order. Stability is proved of the sort it uses (StableSort.SortStable), not restated in its own contract.
- `@attr` transforms (`'string'`, `'number'`) are framework coercions. The attributes hold whatever value was stored.
- The runtime `require` in `createAddress` is module loading, not logic.
- PersonSerializer.Normalize: `normalize` assigns `hash.addresses` in place. The model returns the rewritten map, so a caller that shares the same hash object is not modelled.
- PersonSerializer.Serialize: the source sorts a copied array in place. The model sorts by value, which gives the same order.
- The error raised when a property of a null or undefined element is read is engine-specific text. The model uses one fixed message.
- PersonModel.IdReuseAfterRemoval: does not restate that the shared id parses back to position 2; PersonModel.ParsedGeneratedPosition proves that of every generated id.
