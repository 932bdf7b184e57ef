/**
 * The address serializer: whatever the base serialization produced, the
 * fragment metadata and the synthetic id never reach the server.
 */
module AddressSerializer {
  import opened JsValues

  /** The four metadata attributes of a fragment record. */
  const MetadataKeys: set<string> := {"__fragmentPosition", "__fragmentParentType", "__fragmentParentId", "__fragmentKey"}

  /** Everything `serialize` deletes: the metadata and `id`. */
  const ReservedKeys: set<string> := MetadataKeys + {"id"}

  /** The `serialize` option of one entry of the `attrs` table. */
  datatype AttrOptions = AttrOptions(serialize: bool)

  /** The `attrs` table handed to the base serializer. */
  const AttrsTable: map<string, AttrOptions> := map[
    "__fragmentPosition" := AttrOptions(false),
    "__fragmentParentType" := AttrOptions(false),
    "__fragmentParentId" := AttrOptions(false),
    "__fragmentKey" := AttrOptions(false)]

  /** The table opts out exactly the metadata attributes; `id` is left to the explicit delete. */
  lemma AttrsTableExcludesMetadata()
    ensures forall k :: k in AttrsTable && !AttrsTable[k].serialize <==> k in MetadataKeys
    ensures "id" !in AttrsTable && "id" in ReservedKeys
  {
  }

  /** The base serialization with the reserved keys removed. */
  function Stripped(json: map<string, Value>): (r: map<string, Value>)
    ensures forall k :: k in r <==> k in json && k !in ReservedKeys
    ensures forall k :: k in r ==> r[k] == json[k]
  {
    json - ReservedKeys
  }

  /** `serialize`: deletes the four metadata keys and `id` from the base serialization, in place. */
  method Serialize(base: map<string, Value>) returns (json: map<string, Value>)
    ensures json == Stripped(base)
    ensures forall k :: k in ReservedKeys ==> k !in json
  {
    json := base;
    json := json - {"__fragmentPosition"};
    json := json - {"__fragmentParentType"};
    json := json - {"__fragmentParentId"};
    json := json - {"__fragmentKey"};
    json := json - {"id"};
  }

  /** Stripping twice strips nothing more. */
  lemma StrippedIdempotent(json: map<string, Value>)
    ensures Stripped(Stripped(json)) == Stripped(json)
  {
  }
}
