/**
 * The fragment-id codec: a child fragment's synthetic id is
 * `parentType:parentId:key:position`, with `:fragmentType` appended for a
 * polymorphic fragment.
 */
module FragmentId {
  import opened Wrappers
  import opened JsText
  import opened JsValues

  const IdSeparator: char := ':'

  /** `s` holds no separator, so it survives as a single segment. */
  predicate IsSegment(s: string)
  {
    IdSeparator !in s
  }

  /** The segments `generateFragmentId` joins; the type segment only when `fragmentType` is truthy. */
  function IdParts(parentType: string, parentId: Value, key: string, position: int, fragmentType: Value): seq<string>
  {
    [parentType, ToJsString(parentId), key, IntToDecimal(position)]
      + (if Truthy(fragmentType) then [ToJsString(fragmentType)] else [])
  }

  /**
   * `generateFragmentId`. Whatever its components contain, the id it builds
   * classifies as a fragment id.
   */
  function GenerateFragmentId(parentType: string, parentId: Value, key: string, position: int, fragmentType: Value := Null): (id: string)
    ensures IsFragmentId(Str(id))
  {
    var parts := IdParts(parentType, parentId, key, position, fragmentType);
    SplitJoinLength(parts, IdSeparator);
    Join(parts, IdSeparator)
  }

  /** What `parseFragmentId` returns; `position == None` is `NaN`, `fragmentType == None` is `null`. */
  datatype ParsedId = ParsedId(parentType: string, parentId: string, key: string, position: Option<int>, fragmentType: Option<string>)

  /**
   * `parseFragmentId`: throws exactly when the id has fewer than three
   * separators; otherwise reads the first three segments verbatim, the
   * fourth with `parseInt` and the fifth, when non-empty, as the type.
   */
  function ParseFragmentId(id: string): (r: Result<ParsedId>)
    ensures r.Failure? <==> Occurrences(id, IdSeparator) < 3
    ensures r.Success? ==> IsSegment(r.value.parentType) && IsSegment(r.value.parentId) && IsSegment(r.value.key)
    ensures r.Success? ==>
      r.value.parentType + [IdSeparator] + r.value.parentId + [IdSeparator] + r.value.key + [IdSeparator] <= id
    ensures r.Success? && r.value.fragmentType.Some? ==> IsSegment(r.value.fragmentType.value) && r.value.fragmentType.value != []
    ensures r.Success? && r.value.fragmentType.Some? ==> Occurrences(id, IdSeparator) >= 4
  {
    var parts := Split(id, IdSeparator);
    if |parts| < 4 then Failure("Invalid fragment ID format: " + id)
    else
      LeadingSegments(id);
      Success(ParsedId(parts[0], parts[1], parts[2], ParseInt(parts[3]),
        if |parts| > 4 && parts[4] != [] then Some(parts[4]) else None))
  }

  /** `isFragmentId`: a string that splits into at least four segments. */
  predicate IsFragmentId(v: Value)
    ensures IsFragmentId(v) <==> v.Str? && Occurrences(v.s, IdSeparator) >= 3
  {
    v.Str? && |Split(v.s, IdSeparator)| >= 4
  }

  /** `getParentIdFromFragment`. */
  function ParentIdFromFragment(id: string): (r: Result<string>)
    ensures r.Failure? <==> !IsFragmentId(Str(id))
  {
    match ParseFragmentId(id)
    case Success(p) => Success(p.parentId)
    case Failure(e) => Failure(e)
  }

  /** `getParentTypeFromFragment`. */
  function ParentTypeFromFragment(id: string): (r: Result<string>)
    ensures r.Failure? <==> !IsFragmentId(Str(id))
  {
    match ParseFragmentId(id)
    case Success(p) => Success(p.parentType)
    case Failure(e) => Failure(e)
  }

  // ---- properties ------------------------------------------------------

  /** The classifier and the parser agree: parsing throws exactly on what is not a fragment id. */
  lemma ParseFailsIffNotFragmentId(id: string)
    ensures ParseFragmentId(id).Failure? <==> !IsFragmentId(Str(id))
  {
  }

  /** The first three segments of an id, each followed by its separator, begin the id. */
  lemma LeadingSegments(id: string)
    requires |Split(id, IdSeparator)| >= 4
    ensures var parts := Split(id, IdSeparator);
      parts[0] + [IdSeparator] + parts[1] + [IdSeparator] + parts[2] + [IdSeparator] <= id
  {
    var parts := Split(id, IdSeparator);
    var rest := parts[3..];
    JoinSplit(id, IdSeparator);
    assert parts == [parts[0]] + ([parts[1]] + ([parts[2]] + rest));
    JoinCons(parts[2], rest, IdSeparator);
    JoinCons(parts[1], [parts[2]] + rest, IdSeparator);
    JoinCons(parts[0], [parts[1]] + ([parts[2]] + rest), IdSeparator);
    ConcatAssoc(parts[0], parts[1], parts[2], Join(rest, IdSeparator));
  }

  /**
   * The parse of any id, field by field: join its separator-free segments
   * (every id is such a join, by `JoinSplit`); the type, owner id and key are
   * the first three, the position is `parseInt` of the fourth, and the type
   * is the fifth when there is a non-empty one.
   */
  lemma ParseJoin(segments: seq<string>)
    requires |segments| >= 4 && forall i :: 0 <= i < |segments| ==> IsSegment(segments[i])
    ensures ParseFragmentId(Join(segments, IdSeparator))
      == Success(ParsedId(segments[0], segments[1], segments[2], ParseInt(segments[3]),
           if |segments| > 4 && segments[4] != [] then Some(segments[4]) else None))
  {
    SplitJoin(segments, IdSeparator);
  }

  /**
   * The parser does not reject a position that is not a number: when the
   * fourth segment is white space `blank` and then `rest`, with no digit
   * after `rest`'s sign, the id parses, with `NaN` as the position.
   */
  lemma ParseAcceptsNaNPosition(segments: seq<string>, blank: string, rest: string)
    requires |segments| >= 4 && forall i :: 0 <= i < |segments| ==> IsSegment(segments[i])
    requires segments[3] == blank + rest
    requires forall i :: 0 <= i < |blank| ==> IsJsWhitespace(blank[i])
    requires rest == [] || !IsJsWhitespace(rest[0])
    requires !StartsWithNumber(rest)
    ensures var r := ParseFragmentId(Join(segments, IdSeparator));
      r.Success? && r.value.position.None?
  {
    TrimStartSkipsBlank(blank, rest);
    ParseJoin(segments);
  }



  /** The fragment-type segment `parseFragmentId` reads back from a generated id. */
  function ReadBackType(fragmentType: Value): Option<string>
  {
    if Truthy(fragmentType) && ToJsString(fragmentType) != [] then Some(ToJsString(fragmentType)) else None
  }

  lemma DecimalIsSegment(n: int)
    ensures IsSegment(IntToDecimal(n))
  {
  }

  /**
   * Round trip: when the parent type, parent id, key and type carry no
   * separator, parsing a generated id gives its components back, the
   * position included (for any integer position).
   */
  lemma ParseGenerated(parentType: string, parentId: Value, key: string, position: int, fragmentType: Value)
    requires IsSegment(parentType) && IsSegment(ToJsString(parentId)) && IsSegment(key)
    requires Truthy(fragmentType) ==> IsSegment(ToJsString(fragmentType))
    ensures ParseFragmentId(GenerateFragmentId(parentType, parentId, key, position, fragmentType))
      == Success(ParsedId(parentType, ToJsString(parentId), key, Some(position), ReadBackType(fragmentType)))
  {
    var parts := IdParts(parentType, parentId, key, position, fragmentType);
    var id := GenerateFragmentId(parentType, parentId, key, position, fragmentType);
    assert Split(id, IdSeparator) == parts by {
      DecimalIsSegment(position);
      SplitJoin(parts, IdSeparator);
    }
    assert ParseInt(parts[3]) == Some(position) by {
      ParseIntOfDecimal(position);
    }
    ParseBySegments(id);
    assert (if |parts| > 4 && parts[4] != [] then Some(parts[4]) else None) == ReadBackType(fragmentType);
  }

  /** The parse of an id with at least four segments, field by field. */
  lemma ParseBySegments(id: string)
    requires |Split(id, IdSeparator)| >= 4
    ensures var parts := Split(id, IdSeparator);
      ParseFragmentId(id) == Success(ParsedId(parts[0], parts[1], parts[2], ParseInt(parts[3]),
        if |parts| > 4 && parts[4] != [] then Some(parts[4]) else None))
  {
  }

  /** Joining four or five segments, written out. */
  lemma JoinSegments(a: string, b: string, c: string, d: string, extra: seq<string>)
    requires |extra| <= 1
    ensures Join([a, b, c, d] + extra, IdSeparator)
      == a + [IdSeparator] + b + [IdSeparator] + c + [IdSeparator] + d
         + (if extra == [] then [] else [IdSeparator] + extra[0])
  {
    var sep := IdSeparator;
    var tail := [d] + extra;
    var last := d + (if extra == [] then [] else [sep] + extra[0]);
    JoinLast(d, extra);
    assert [a, b, c, d] + extra == [a] + ([b] + ([c] + tail));
    JoinCons(c, tail, sep);
    JoinCons(b, [c] + tail, sep);
    JoinCons(a, [b] + ([c] + tail), sep);
    assert Join([a, b, c, d] + extra, sep) == a + [sep] + (b + [sep] + (c + [sep] + last));
    ConcatAssoc(a, b, c, last);
  }

  lemma JoinLast(d: string, extra: seq<string>)
    requires |extra| <= 1
    ensures Join([d] + extra, IdSeparator) == d + (if extra == [] then [] else [IdSeparator] + extra[0])
  {
    if extra != [] {
      JoinCons(d, extra, IdSeparator);
    } else {
      assert [d] + extra == [d];
    }
  }

  lemma ConcatAssoc(a: string, b: string, c: string, last: string)
    ensures a + [IdSeparator] + (b + [IdSeparator] + (c + [IdSeparator] + last))
      == a + [IdSeparator] + b + [IdSeparator] + c + [IdSeparator] + last
  {
  }

  /** A generated id spelled as prefix, position and suffix. */
  lemma GeneratedLayout(parentType: string, parentId: Value, key: string, position: int, fragmentType: Value)
    ensures GenerateFragmentId(parentType, parentId, key, position, fragmentType)
      == Prefix(parentType, parentId, key) + IntToDecimal(position) + Suffix(fragmentType)
  {
    var extra := if Truthy(fragmentType) then [ToJsString(fragmentType)] else [];
    JoinSegments(parentType, ToJsString(parentId), key, IntToDecimal(position), extra);
  }

  function Prefix(parentType: string, parentId: Value, key: string): string
  {
    parentType + [IdSeparator] + ToJsString(parentId) + [IdSeparator] + key + [IdSeparator]
  }

  function Suffix(fragmentType: Value): string
  {
    if Truthy(fragmentType) then [IdSeparator] + ToJsString(fragmentType) else []
  }

  /**
   * Distinct positions under the same owner, key and type give distinct ids,
   * whatever the other components contain.
   */
  lemma GenerateInjectiveInPosition(parentType: string, parentId: Value, key: string, i: int, j: int, fragmentType: Value)
    requires GenerateFragmentId(parentType, parentId, key, i, fragmentType) == GenerateFragmentId(parentType, parentId, key, j, fragmentType)
    ensures i == j
  {
    GeneratedLayout(parentType, parentId, key, i, fragmentType);
    GeneratedLayout(parentType, parentId, key, j, fragmentType);
    var p := Prefix(parentType, parentId, key);
    var q := Suffix(fragmentType);
    var di, dj := IntToDecimal(i), IntToDecimal(j);
    assert |p + di + q| == |p + dj + q|;
    assert di == (p + di + q)[|p|..|p| + |di|];
    assert dj == (p + dj + q)[|p|..|p| + |dj|];
    DecimalInjective(i, j);
  }

  lemma SplitAfterSegment(a: string, rest: string)
    requires IsSegment(a)
    ensures Split(a + [IdSeparator] + rest, IdSeparator) == [a] + Split(rest, IdSeparator)
  {
    SplitConcat(a, rest, IdSeparator);
    SplitWithoutSeparator(a, IdSeparator);
  }

  /** A generated id as its type segment, its id segment and the rest. */
  lemma GeneratedNested(parentType: string, parentId: Value, key: string, position: int, fragmentType: Value)
    ensures GenerateFragmentId(parentType, parentId, key, position, fragmentType)
      == parentType + [IdSeparator] + (ToJsString(parentId) + [IdSeparator] + (key + [IdSeparator] + IntToDecimal(position) + Suffix(fragmentType)))
  {
    GeneratedLayout(parentType, parentId, key, position, fragmentType);
    var last := IntToDecimal(position) + Suffix(fragmentType);
    AppendAssoc(Prefix(parentType, parentId, key), IntToDecimal(position), Suffix(fragmentType));
    ConcatAssoc(parentType, ToJsString(parentId), key, last);
  }

  lemma AppendAssoc(p: string, x: string, y: string)
    ensures p + x + y == p + (x + y)
  {
  }

  /** The owner id of a generated id is read back whenever the type and id segments carry no separator. */
  lemma ParentIdOfGenerated(parentType: string, parentId: Value, key: string, position: int, fragmentType: Value)
    requires IsSegment(parentType) && IsSegment(ToJsString(parentId))
    ensures ParentIdFromFragment(GenerateFragmentId(parentType, parentId, key, position, fragmentType)) == Success(ToJsString(parentId))
  {
    var pid := ToJsString(parentId);
    var rest := key + [IdSeparator] + IntToDecimal(position) + Suffix(fragmentType);
    var id := GenerateFragmentId(parentType, parentId, key, position, fragmentType);
    GeneratedNested(parentType, parentId, key, position, fragmentType);
    SplitAfterSegment(parentType, pid + [IdSeparator] + rest);
    SplitAfterSegment(pid, rest);
    assert Split(id, IdSeparator)[1] == pid;
  }

  /** The owner type of a generated id is read back whenever it carries no separator. */
  lemma ParentTypeOfGenerated(parentType: string, parentId: Value, key: string, position: int, fragmentType: Value)
    requires IsSegment(parentType)
    ensures ParentTypeFromFragment(GenerateFragmentId(parentType, parentId, key, position, fragmentType)) == Success(parentType)
  {
    var rest2 := key + [IdSeparator] + IntToDecimal(position) + Suffix(fragmentType);
    var rest := ToJsString(parentId) + [IdSeparator] + rest2;
    var id := GenerateFragmentId(parentType, parentId, key, position, fragmentType);
    GeneratedNested(parentType, parentId, key, position, fragmentType);
    SplitAfterSegment(parentType, rest);
    assert Split(id, IdSeparator)[0] == parentType;
  }

  /** Segments after the fifth are ignored by the parser. */
  lemma ParseIgnoresExtraSegments(id: string, tail: string)
    requires |Split(id, IdSeparator)| >= 5
    ensures ParseFragmentId(id + [IdSeparator] + tail) == ParseFragmentId(id)
  {
    SplitConcat(id, tail, IdSeparator);
  }
}
