/**
 * The static readers of JSON:API request bodies: the id of the primary data (as a string translated to
 * another type, or as a Java long checked against an expected id), and the primary data turned into an
 * application entity. Before the JSON mapper sees a resource, its attributes are merged with one
 * `{ "id": ... }` value per relationship. The mapper itself is a pair of function parameters.
 */
module JsonApiUtil {
  import opened Wrappers
  import opened OrderedMaps
  import opened Documents
  import opened Model
  import opened JavaLong
  import Identifiable

  /** The property map handed to the mapper (a `Map<String, ?>`; only its key/value pairs matter here). */
  type Props = map<string, Value>

  /**
   * The JSON mapper: writing a map (or null) as JSON text, and reading JSON text as an instance of the class
   * with the given name, which may be null. None stands for an IOException.
   */
  datatype JsonMapper = JsonMapper(
    writeValueAsString: Option<Props> -> Option<string>,
    readValue: (string, string) -> Option<Option<Entity>>)

  const DataRequired := "data required"
  const ValueCannotBeNull := "Value cannot be null"
  const UnexpectedFormat := "Unexpected object format for nullable value"

  /* ---------- Ids ---------- */

  /** `readId`: the translated id of the primary data, which must be present. */
  function ReadId<T>(data: Option<Resource>, idTranslator: Option<string> -> Option<T>): (r: Result<Option<T>>)
    ensures data.None? <==> r.Err?
    ensures r.Err? ==> r.error == BadRequest(DataRequired)
    ensures data.Some? ==> r.value == idTranslator(data.value.id)
  {
    if data.None? then Err(BadRequest(DataRequired)) else Ok(idTranslator(data.value.id))
  }

  /** `parseLongNoThrow`: `Long.valueOf`, with a null string or a NumberFormatException giving empty. */
  function ParseLongNoThrow(numStr: Option<string>): (r: Option<int>)
    ensures numStr.None? ==> r.None?
    ensures r.Some? ==> InLongRange(r.value) && LongToString(r.value) != [] && numStr.Some?
  {
    if numStr.None? then None else ParseLong(numStr.value)
  }

  /** Every long written in decimal reads back through `parseLongNoThrow`; nothing else outside the range does. */
  lemma ParseLongNoThrowRoundTrip(n: int)
    ensures InLongRange(n) ==> ParseLongNoThrow(Some(LongToString(n))) == Some(n)
    ensures !InLongRange(n) ==> ParseLongNoThrow(Some(LongToString(n))) == None
  {
    ParseLongToString(n);
  }

  /** `readLongId`: the id of the primary data as a long, or empty when it is null or not a long. */
  function ReadLongId(data: Option<Resource>): (r: Result<Option<int>>)
    ensures data.None? <==> r.Err?
    ensures r.Err? ==> r.error == BadRequest(DataRequired)
    ensures r.Ok? && r.value.Some? ==> data.value.id.Some? && ParseLong(data.value.id.value) == r.value
    ensures data.Some? ==> r == Ok(ParseLongNoThrow(data.value.id))
  {
    ReadId(data, ParseLongNoThrow)
  }

  /** A resource whose id is the decimal form of a long reads back that long; a null id reads as empty. */
  lemma ReadLongIdOfLong(res: Resource, n: int)
    requires InLongRange(n)
    ensures res.id == Some(LongToString(n)) ==> ReadLongId(Some(res)) == Ok(Some(n))
    ensures res.id.None? ==> ReadLongId(Some(res)) == Ok(None)
  {
    ParseLongNoThrowRoundTrip(n);
  }

  /**
   * `readAndValidateLongId`: the id of the primary data as a long when it equals the expected id, and empty
   * when it is missing, not a long, or another number.
   */
  function ReadAndValidateLongId(data: Option<Resource>, expectedId: int): (r: Result<Option<int>>)
    requires InLongRange(expectedId)
    ensures data.None? <==> r.Err?
    ensures r.Err? ==> r.error == BadRequest(DataRequired)
    ensures r.Ok? ==> (r.value == Some(expectedId) <==> ParseLongNoThrow(data.value.id) == Some(expectedId))
    ensures r.Ok? ==> (r.value.None? <==> ParseLongNoThrow(data.value.id) != Some(expectedId))
  {
    var objId :- ReadLongId(data);
    Ok(if objId.Some? && objId.value == expectedId then objId else None)
  }

  /** A resource whose id is the decimal form of the expected id is accepted with that id. */
  lemma ValidateLongIdAccepts(res: Resource, expectedId: int)
    requires InLongRange(expectedId) && res.id == Some(LongToString(expectedId))
    ensures ReadAndValidateLongId(Some(res), expectedId) == Ok(Some(expectedId))
  {
    ParseLongToString(expectedId);
  }

  /* ---------- The property map of a resource ---------- */

  /**
   * The relationship id map built by the stream in `readResourceWithoutId`: each relationship name mapped to
   * `toResourceIds` of its data. A null relationship object, a null data, a null array element or a missing id
   * is a NullPointerException.
   */
  function RelationshipIdMap(rels: OMap<Option<RelationshipObject>>): (r: Result<Props>)
    ensures r.Ok? <==> forall i :: 0 <= i < |rels| ==> DataOf(rels[i].1).Some? && DataResourceIds(DataOf(rels[i].1).value).Ok?
    ensures r.Err? ==> r.error == NullPointer
    ensures r.Ok? ==> forall k :: k in r.value <==> k in Keys(rels)
    decreases |rels|
  {
    if rels == [] then Ok(map[])
    else
      var init := rels[..|rels| - 1];
      var last := rels[|rels| - 1];
      assert forall i :: 0 <= i < |init| ==> init[i] == rels[i];
      assert Keys(rels) == Keys(init) + [last.0];
      var ids :- RelationshipIdMap(init);
      if DataOf(last.1).None? then Err(NullPointer)
      else
        var lastIds :- DataResourceIds(DataOf(last.1).value);
        Ok(ids[last.0 := lastIds])
  }

  /** In a relationships map without repeated names, each name is mapped to the id value of its own data. */
  lemma {:induction false} RelationshipIdMapValues(rels: OMap<Option<RelationshipObject>>, i: nat)
    requires DistinctKeys(rels) && i < |rels| && RelationshipIdMap(rels).Ok?
    ensures rels[i].0 in RelationshipIdMap(rels).value
    ensures RelationshipIdMap(rels).value[rels[i].0] == DataResourceIds(DataOf(rels[i].1).value).value
    decreases |rels|
  {
    assert Keys(rels)[i] == rels[i].0;
    var init := rels[..|rels| - 1];
    if i < |rels| - 1 {
      assert init[i] == rels[i];
      assert DistinctKeys(init);
      RelationshipIdMapValues(init, i);
      assert rels[i].0 != rels[|rels| - 1].0;
    }
  }

  /** The attributes as a map, or null. */
  function AttributeMap(attributes: Option<OMap<Value>>): (r: Option<Props>)
    ensures attributes.None? <==> r.None?
  {
    if attributes.None? then None else Some(ToMap(attributes.value))
  }

  /**
   * The map `readResourceWithoutId` hands to the mapper: the attributes alone when there are no relationships;
   * otherwise a copy of the attributes (empty when null) with every relationship's id value put over it.
   */
  function PropertiesOf(res: Resource): (r: Result<Option<Props>>)
    ensures res.relationships.None? ==> r == Ok(AttributeMap(res.attributes))
    ensures res.relationships.Some? ==>
      (r.Ok? <==> RelationshipIdMap(res.relationships.value).Ok?)
    ensures r.Err? ==> r.error == NullPointer
    ensures res.relationships.Some? && r.Ok? ==> r.value.Some? && forall k :: k in r.value.value <==>
      k in Keys(res.relationships.value) || (res.attributes.Some? && k in Keys(res.attributes.value))
  {
    if res.relationships.None? then Ok(AttributeMap(res.attributes))
    else
      var relationshipIdMap :- RelationshipIdMap(res.relationships.value);
      var properties := if res.attributes.None? then map[] else ToMap(res.attributes.value);
      Ok(Some(properties + relationshipIdMap))
  }

  /**
   * With relationships, a relationship's id value wins over an attribute of the same name, and every other
   * attribute keeps its value; the resource itself is a value and is left as it was.
   */
  lemma PropertiesMerge(res: Resource, k: string)
    requires res.relationships.Some? && DistinctKeys(res.relationships.value) && PropertiesOf(res).Ok?
    ensures var props := PropertiesOf(res).value.value;
      (k in Keys(res.relationships.value) ==>
        DataOf(Get(res.relationships.value, k).value).Some? &&
        props[k] == DataResourceIds(DataOf(Get(res.relationships.value, k).value).value).value) &&
      (k !in Keys(res.relationships.value) && res.attributes.Some? && k in Keys(res.attributes.value) ==>
        Get(res.attributes.value, k) == Some(props[k]))
  {
    var rels := res.relationships.value;
    if k in Keys(rels) {
      var i := IndexOf(Keys(rels), k).value;
      GetAt(rels, i);
      RelationshipIdMapValues(rels, i);
    }
  }

  /** A relationship that is null or whose data is null makes the merge fail, whatever the other entries hold. */
  lemma NullRelationshipDataFails(res: Resource, i: nat)
    requires res.relationships.Some? && i < |res.relationships.value| && DataOf(res.relationships.value[i].1).None?
    ensures PropertiesOf(res) == Err(NullPointer)
  {
  }

  /**
   * The merge in `readResourceWithoutId`: the relationship ids are collected entry by entry, then the
   * attributes are copied into a new map and the ids put over them.
   */
  method ReadProperties(res: Resource) returns (r: Result<Option<Props>>)
    ensures r == PropertiesOf(res)
  {
    var properties := AttributeMap(res.attributes);
    if res.relationships.Some? {
      var rels := res.relationships.value;
      var relationshipIdMap: Props := map[];
      for i := 0 to |rels|
        invariant RelationshipIdMap(rels[..i]) == Ok(relationshipIdMap)
      {
        RelationshipIdMapStep(rels, i, relationshipIdMap);
        var data := DataOf(rels[i].1);
        if data.None? {
          return Err(NullPointer);
        }
        var ids := DataResourceIds(data.value);
        if ids.Err? {
          return Err(NullPointer);
        }
        relationshipIdMap := relationshipIdMap[rels[i].0 := ids.value];
      }
      assert rels[..|rels|] == rels;
      var copy := if properties.None? then map[] else properties.value;
      copy := copy + relationshipIdMap;
      properties := Some(copy);
    }
    r := Ok(properties);
  }

  /** One entry of the stream: it adds its name's ids to the map so far, or it fails the whole map. */
  lemma RelationshipIdMapStep(rels: OMap<Option<RelationshipObject>>, i: nat, acc: Props)
    requires i < |rels| && RelationshipIdMap(rels[..i]) == Ok(acc)
    ensures var d := DataOf(rels[i].1);
      if d.Some? && DataResourceIds(d.value).Ok? then
        RelationshipIdMap(rels[..i + 1]) == Ok(acc[rels[i].0 := DataResourceIds(d.value).value])
      else RelationshipIdMap(rels).Err?
  {
    var upTo := rels[..i + 1];
    assert |upTo| == i + 1 && upTo[..|upTo| - 1] == rels[..i] && upTo[|upTo| - 1] == rels[i];
    var d := DataOf(rels[i].1);
    if !(d.Some? && DataResourceIds(d.value).Ok?) {
      RelationshipIdMapErrExtends(rels, i + 1);
    }
  }

  /** Once a prefix of the relationships fails, the whole map fails. */
  lemma {:induction false} RelationshipIdMapErrExtends(rels: OMap<Option<RelationshipObject>>, n: nat)
    requires n <= |rels| && RelationshipIdMap(rels[..n]).Err?
    ensures RelationshipIdMap(rels).Err?
  {
    assert forall i :: 0 <= i < n ==> rels[..n][i] == rels[i];
  }

  /* ---------- Reading values ---------- */

  /**
   * `readNullableValue`: a null map reads as empty without calling the mapper; otherwise the map is written
   * and read back as the class, and an IOException on either side is a BAD_REQUEST.
   */
  function ReadNullableValue(jsonMapper: JsonMapper, m: Option<Props>, clazz: string): (r: Result<Option<Entity>>)
    ensures m.None? ==> r == Ok(None)
    ensures r.Err? ==> r.error == BadRequest(UnexpectedFormat)
    ensures m.Some? ==> (r.Ok? <==>
      jsonMapper.writeValueAsString(m).Some? && jsonMapper.readValue(jsonMapper.writeValueAsString(m).value, clazz).Some?)
    ensures m.Some? && r.Ok? ==> r.value == jsonMapper.readValue(jsonMapper.writeValueAsString(m).value, clazz).value
  {
    if m.None? then Ok(None)
    else
      match jsonMapper.writeValueAsString(m)
      case None => Err(BadRequest(UnexpectedFormat))
      case Some(jsonStr) =>
        match jsonMapper.readValue(jsonStr, clazz)
        case None => Err(BadRequest(UnexpectedFormat))
        case Some(v) => Ok(v)
  }

  /** Turns an empty read into BAD_REQUEST "Value cannot be null" (`orElseThrow`). */
  function OrElseThrow(v: Result<Option<Entity>>): (r: Result<Entity>)
    ensures r.Ok? <==> v.Ok? && v.value.Some?
    ensures r.Ok? ==> r.value == v.value.value
    ensures v.Err? ==> r.error == v.error
    ensures v.Ok? && v.value.None? ==> r.error == BadRequest(ValueCannotBeNull)
  {
    var o :- v;
    if o.None? then Err(BadRequest(ValueCannotBeNull)) else Ok(o.value)
  }

  /** `readValue`: the value read from the map, which must not be empty. */
  function ReadValue(jsonMapper: JsonMapper, m: Option<Props>, clazz: string): (r: Result<Entity>)
    ensures m.None? ==> r == Err(BadRequest(ValueCannotBeNull))
    ensures r.Ok? <==> ReadNullableValue(jsonMapper, m, clazz).Ok? && ReadNullableValue(jsonMapper, m, clazz).value.Some?
    ensures r.Ok? ==> r.value == ReadNullableValue(jsonMapper, m, clazz).value.value
    ensures ReadNullableValue(jsonMapper, m, clazz).Err? ==> r == Err(ReadNullableValue(jsonMapper, m, clazz).error)
    ensures ReadNullableValue(jsonMapper, m, clazz) == Ok(None) ==> r == Err(BadRequest(ValueCannotBeNull))
  {
    OrElseThrow(ReadNullableValue(jsonMapper, m, clazz))
  }

  /** `readResourceWithoutId`: the resource, which must be present, read through its merged property map. */
  function ReadResourceWithoutId(jsonMapper: JsonMapper, res: Option<Resource>, clazz: string): (r: Result<Option<Entity>>)
    ensures res.None? ==> r == Err(BadRequest(DataRequired))
    ensures res.Some? && PropertiesOf(res.value).Err? ==> r == Err(NullPointer)
    ensures res.Some? && PropertiesOf(res.value).Ok? ==>
      r == ReadNullableValue(jsonMapper, PropertiesOf(res.value).value, clazz)
  {
    if res.None? then Err(BadRequest(DataRequired))
    else
      var properties :- PropertiesOf(res.value);
      ReadNullableValue(jsonMapper, properties, clazz)
  }

  /** `applyJsonApiId`: the entity takes the given JSON:API id (null included). */
  function ApplyJsonApiId(e: Entity, jsonApiId: Option<string>): (r: Entity)
    ensures r.jsonApiId == jsonApiId && r.rtype == e.rtype && r.props == e.props
  {
    e.(jsonApiId := jsonApiId)
  }

  /** `readResourceWithId`: as without the id, then the resource's id applied to the value read. */
  function ReadResourceWithId(jsonMapper: JsonMapper, res: Option<Resource>, clazz: string): (r: Result<Option<Entity>>)
    ensures r.Ok? <==> ReadResourceWithoutId(jsonMapper, res, clazz).Ok?
    ensures r.Err? ==> r.error == ReadResourceWithoutId(jsonMapper, res, clazz).error
    ensures r.Ok? ==> (r.value.Some? <==> ReadResourceWithoutId(jsonMapper, res, clazz).value.Some?)
    ensures r.Ok? && r.value.Some? ==>
      r.value.value == ReadResourceWithoutId(jsonMapper, res, clazz).value.value.(jsonApiId := res.value.id)
  {
    var v :- ReadResourceWithoutId(jsonMapper, res, clazz);
    Ok(if v.None? then None else Some(ApplyJsonApiId(v.value, res.value.id)))
  }

  /** Reading a resource with its id and then identifying the entity gives back the resource's id. */
  lemma ReadWithIdKeepsId(jsonMapper: JsonMapper, res: Resource, clazz: string)
    requires ReadResourceWithId(jsonMapper, Some(res), clazz).Ok?
    requires ReadResourceWithId(jsonMapper, Some(res), clazz).value.Some?
    ensures var e := ReadResourceWithId(jsonMapper, Some(res), clazz).value.value;
      Identifiable.IdOnly(e).id == res.id
  {
  }

  /** `readResourceWithIdOrThrow`: as `readResourceWithId`, an empty value being BAD_REQUEST. */
  function ReadResourceWithIdOrThrow(jsonMapper: JsonMapper, res: Option<Resource>, clazz: string): (r: Result<Entity>)
    ensures res.None? ==> r == Err(BadRequest(DataRequired))
    ensures r.Ok? <==> ReadResourceWithId(jsonMapper, res, clazz).Ok? && ReadResourceWithId(jsonMapper, res, clazz).value.Some?
    ensures r.Ok? ==> r.value.jsonApiId == res.value.id
    ensures r.Ok? ==> r.value == ReadResourceWithId(jsonMapper, res, clazz).value.value
    ensures ReadResourceWithId(jsonMapper, res, clazz).Err? ==> r == Err(ReadResourceWithId(jsonMapper, res, clazz).error)
    ensures ReadResourceWithId(jsonMapper, res, clazz) == Ok(None) ==> r == Err(BadRequest(ValueCannotBeNull))
  {
    OrElseThrow(ReadResourceWithId(jsonMapper, res, clazz))
  }

  /** `readDataWithId`: the primary data read with its id; it must be present and not read as null. */
  function ReadDataWithId(jsonMapper: JsonMapper, data: Option<Resource>, clazz: string): (r: Result<Entity>)
    ensures data.None? ==> r == Err(BadRequest(DataRequired))
    ensures r.Ok? <==> ReadResourceWithoutId(jsonMapper, data, clazz).Ok? && ReadResourceWithoutId(jsonMapper, data, clazz).value.Some?
    ensures r.Ok? ==> r.value == ReadResourceWithoutId(jsonMapper, data, clazz).value.value.(jsonApiId := data.value.id)
    ensures ReadResourceWithoutId(jsonMapper, data, clazz).Err? ==> r == Err(ReadResourceWithoutId(jsonMapper, data, clazz).error)
    ensures ReadResourceWithoutId(jsonMapper, data, clazz) == Ok(None) ==> r == Err(BadRequest(ValueCannotBeNull))
  {
    ReadResourceWithIdOrThrow(jsonMapper, data, clazz)
  }

  /** `readDataWithoutId`: the primary data read without its id; it must be present and not read as null. */
  function ReadDataWithoutId(jsonMapper: JsonMapper, data: Option<Resource>, clazz: string): (r: Result<Entity>)
    ensures data.None? ==> r == Err(BadRequest(DataRequired))
    ensures r.Ok? <==> ReadResourceWithoutId(jsonMapper, data, clazz).Ok? && ReadResourceWithoutId(jsonMapper, data, clazz).value.Some?
    ensures r.Ok? ==> r.value == ReadResourceWithoutId(jsonMapper, data, clazz).value.value
    ensures ReadResourceWithoutId(jsonMapper, data, clazz).Err? ==> r == Err(ReadResourceWithoutId(jsonMapper, data, clazz).error)
    ensures ReadResourceWithoutId(jsonMapper, data, clazz) == Ok(None) ==> r == Err(BadRequest(ValueCannotBeNull))
  {
    OrElseThrow(ReadResourceWithoutId(jsonMapper, data, clazz))
  }

  /** A reader of one array element (`readResourceWithIdOrThrow` with the mapper and class fixed). */
  type ElementReader = Option<Resource> -> Result<Entity>

  /**
   * `readDataWithIds`: every element of the primary data array read with its id, in order, each entity
   * carrying its resource's id; a null array is a NullPointerException, and the first element that fails
   * (a null element is "data required") gives the error.
   */
  function ReadDataWithIds(jsonMapper: JsonMapper, arr: Option<ResourceArray>, clazz: string): (r: Result<seq<Entity>>)
    ensures arr.None? ==> r == Err(NullPointer)
    ensures arr.Some? ==> (r.Ok? <==> forall i :: 0 <= i < |arr.value| ==>
      ReadResourceWithIdOrThrow(jsonMapper, arr.value[i], clazz).Ok?)
    ensures r.Ok? ==> |r.value| == |arr.value| && forall i :: 0 <= i < |arr.value| ==>
      arr.value[i].Some? && ReadResourceWithIdOrThrow(jsonMapper, arr.value[i], clazz) == Ok(r.value[i]) &&
      r.value[i].jsonApiId == arr.value[i].value.id
    ensures arr.Some? && r.Err? ==>
      exists i :: 0 <= i < |arr.value| && ReadResourceWithIdOrThrow(jsonMapper, arr.value[i], clazz) == Err(r.error) &&
        forall j :: 0 <= j < i ==> ReadResourceWithIdOrThrow(jsonMapper, arr.value[j], clazz).Ok?
  {
    if arr.None? then Err(NullPointer)
    else
      var read := res => ReadResourceWithIdOrThrow(jsonMapper, res, clazz);
      MapAllSpec(read, arr.value);
      MapAll(read, arr.value)
  }

  /** A null element is refused as "data required" once every element before it has been read. */
  lemma NullElementRefused(jsonMapper: JsonMapper, arr: ResourceArray, clazz: string, i: nat)
    requires i < |arr| && arr[i].None?
    requires forall j :: 0 <= j < i ==> ReadResourceWithIdOrThrow(jsonMapper, arr[j], clazz).Ok?
    ensures ReadDataWithIds(jsonMapper, Some(arr), clazz) == Err(BadRequest(DataRequired))
  {
    var r := ReadDataWithIds(jsonMapper, Some(arr), clazz);
    assert ReadResourceWithIdOrThrow(jsonMapper, arr[i], clazz).Err?;
    var k :| 0 <= k < |arr| && ReadResourceWithIdOrThrow(jsonMapper, arr[k], clazz) == Err(r.error) &&
      forall j :: 0 <= j < k ==> ReadResourceWithIdOrThrow(jsonMapper, arr[j], clazz).Ok?;
    assert k == i;
  }
}
