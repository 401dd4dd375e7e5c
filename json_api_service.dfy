/**
 * The injectable service with the same readers as the static utility, holding its own JSON mapper.
 * Its nullable reader hands a null map to the mapper instead of answering empty at once, so the two agree
 * whenever the mapper writes null as a text it reads back as null.
 */
module JsonApiService {
  import opened Wrappers
  import opened Documents
  import opened JsonApiUtil

  /** The mapper writes a null map as some text that it reads back as null, whatever the class. */
  ghost predicate WritesNullAsNull(jsonMapper: JsonMapper)
  {
    jsonMapper.writeValueAsString(None).Some? &&
    forall clazz :: jsonMapper.readValue(jsonMapper.writeValueAsString(None).value, clazz) == Some(None)
  }

  /** JsonApiService, with its injected `jsonMapper`. */
  class Service {
    const jsonMapper: JsonMapper

    constructor(jsonMapper: JsonMapper)
      ensures this.jsonMapper == jsonMapper
    {
      this.jsonMapper := jsonMapper;
    }

    /**
     * `readNullableValue`: the map, even a null one, is written and read back as the class; an IOException
     * on either side is a BAD_REQUEST.
     */
    function ReadNullableValue(m: Option<Props>, clazz: string): (r: Result<Option<Entity>>)
      ensures r.Err? ==> r.error == BadRequest(UnexpectedFormat)
      ensures r.Ok? <==> (jsonMapper.writeValueAsString(m).Some? &&
                          jsonMapper.readValue(jsonMapper.writeValueAsString(m).value, clazz).Some?)
      ensures m.Some? ==> r == JsonApiUtil.ReadNullableValue(jsonMapper, m, clazz)
      ensures m.None? && WritesNullAsNull(jsonMapper) ==> r == Ok(None)
      ensures r.Ok? ==> r.value == jsonMapper.readValue(jsonMapper.writeValueAsString(m).value, clazz).value
    {
      match jsonMapper.writeValueAsString(m)
      case None => Err(BadRequest(UnexpectedFormat))
      case Some(jsonStr) =>
        match jsonMapper.readValue(jsonStr, clazz)
        case None => Err(BadRequest(UnexpectedFormat))
        case Some(v) => Ok(v)
    }

    /** `readValue`: the value read from the map, which must not be empty. */
    function ReadValue(m: Option<Props>, clazz: string): (r: Result<Entity>)
      ensures r.Ok? <==> ReadNullableValue(m, clazz).Ok? && ReadNullableValue(m, clazz).value.Some?
      ensures r.Ok? ==> r.value == ReadNullableValue(m, clazz).value.value
      ensures ReadNullableValue(m, clazz).Err? ==> r == Err(ReadNullableValue(m, clazz).error)
      ensures ReadNullableValue(m, clazz) == Ok(None) ==> r == Err(BadRequest(ValueCannotBeNull))
    {
      OrElseThrow(ReadNullableValue(m, clazz))
    }

    /** `readResourceWithoutId`: the resource, which must be present, read through its merged property map. */
    function ReadResourceWithoutId(res: Option<Resource>, clazz: string): (r: Result<Option<Entity>>)
      ensures res.None? ==> r == Err(BadRequest(DataRequired))
      ensures res.Some? && PropertiesOf(res.value).Err? ==> r == Err(NullPointer)
      ensures res.Some? && PropertiesOf(res.value).Ok? ==> r == ReadNullableValue(PropertiesOf(res.value).value, clazz)
    {
      if res.None? then Err(BadRequest(DataRequired))
      else
        var properties :- PropertiesOf(res.value);
        ReadNullableValue(properties, clazz)
    }

    /** `readResourceWithId`: as without the id, then the resource's id applied to the value read. */
    function ReadResourceWithId(res: Option<Resource>, clazz: string): (r: Result<Option<Entity>>)
      ensures r.Ok? <==> ReadResourceWithoutId(res, clazz).Ok?
      ensures r.Ok? ==> (r.value.Some? <==> ReadResourceWithoutId(res, clazz).value.Some?)
      ensures r.Ok? && r.value.Some? ==>
        r.value.value == ReadResourceWithoutId(res, clazz).value.value.(jsonApiId := res.value.id)
    {
      var v :- ReadResourceWithoutId(res, clazz);
      Ok(if v.None? then None else Some(ApplyJsonApiId(v.value, res.value.id)))
    }

    /** `readResourceWithIdOrThrow`: as `readResourceWithId`, an empty value being BAD_REQUEST. */
    function ReadResourceWithIdOrThrow(res: Option<Resource>, clazz: string): (r: Result<Entity>)
      ensures res.None? ==> r == Err(BadRequest(DataRequired))
      ensures r.Ok? <==> ReadResourceWithId(res, clazz).Ok? && ReadResourceWithId(res, clazz).value.Some?
      ensures r.Ok? ==> r.value.jsonApiId == res.value.id
      ensures r.Ok? ==> r.value == ReadResourceWithId(res, clazz).value.value
      ensures ReadResourceWithId(res, clazz).Err? ==> r == Err(ReadResourceWithId(res, clazz).error)
      ensures ReadResourceWithId(res, clazz) == Ok(None) ==> r == Err(BadRequest(ValueCannotBeNull))
    {
      OrElseThrow(ReadResourceWithId(res, clazz))
    }

    /** `readDataWithId`: the primary data read with its id. */
    function ReadDataWithId(data: Option<Resource>, clazz: string): (r: Result<Entity>)
      ensures data.None? ==> r == Err(BadRequest(DataRequired))
      ensures r.Ok? <==> ReadResourceWithoutId(data, clazz).Ok? && ReadResourceWithoutId(data, clazz).value.Some?
      ensures r.Ok? ==> r.value == ReadResourceWithoutId(data, clazz).value.value.(jsonApiId := data.value.id)
      ensures ReadResourceWithoutId(data, clazz).Err? ==> r == Err(ReadResourceWithoutId(data, clazz).error)
      ensures ReadResourceWithoutId(data, clazz) == Ok(None) ==> r == Err(BadRequest(ValueCannotBeNull))
    {
      ReadResourceWithIdOrThrow(data, clazz)
    }

    /** `readDataWithoutId`: the primary data read without its id; it must not read as null. */
    function ReadDataWithoutId(data: Option<Resource>, clazz: string): (r: Result<Entity>)
      ensures data.None? ==> r == Err(BadRequest(DataRequired))
      ensures r.Ok? <==> ReadResourceWithoutId(data, clazz).Ok? && ReadResourceWithoutId(data, clazz).value.Some?
      ensures r.Ok? ==> r.value == ReadResourceWithoutId(data, clazz).value.value
      ensures ReadResourceWithoutId(data, clazz).Err? ==> r == Err(ReadResourceWithoutId(data, clazz).error)
      ensures ReadResourceWithoutId(data, clazz) == Ok(None) ==> r == Err(BadRequest(ValueCannotBeNull))
    {
      OrElseThrow(ReadResourceWithoutId(data, clazz))
    }

    /** `readDataWithIds`: every element of the primary data array read with its id, one entity per element, in order. */
    function ReadDataWithIds(arr: Option<ResourceArray>, clazz: string): (r: Result<seq<Entity>>)
      ensures arr.None? ==> r == Err(NullPointer)
      ensures r.Ok? ==> |r.value| == |arr.value| && forall i :: 0 <= i < |arr.value| ==>
        arr.value[i].Some? && ReadResourceWithIdOrThrow(arr.value[i], clazz) == Ok(r.value[i]) &&
        r.value[i].jsonApiId == arr.value[i].value.id
      ensures arr.Some? ==> (r.Ok? <==> forall i :: 0 <= i < |arr.value| ==> ReadResourceWithIdOrThrow(arr.value[i], clazz).Ok?)
      ensures arr.Some? && r.Err? ==>
        exists i :: 0 <= i < |arr.value| && ReadResourceWithIdOrThrow(arr.value[i], clazz) == Err(r.error) &&
          forall j :: 0 <= j < i ==> ReadResourceWithIdOrThrow(arr.value[j], clazz).Ok?
    {
      if arr.None? then Err(NullPointer)
      else
        var read := res => ReadResourceWithIdOrThrow(res, clazz);
        MapAllSpec(read, arr.value);
        MapAll(read, arr.value)
    }
  }

  /**
   * When the mapper writes null as null, every reader of the service answers as the static reader of the
   * same name given the service's mapper.
   */
  lemma {:induction false} ServiceAgreesWithUtil(s: Service, m: Option<Props>, res: Option<Resource>, arr: Option<ResourceArray>, clazz: string)
    requires WritesNullAsNull(s.jsonMapper)
    ensures s.ReadNullableValue(m, clazz) == JsonApiUtil.ReadNullableValue(s.jsonMapper, m, clazz)
    ensures s.ReadValue(m, clazz) == JsonApiUtil.ReadValue(s.jsonMapper, m, clazz)
    ensures s.ReadResourceWithoutId(res, clazz) == JsonApiUtil.ReadResourceWithoutId(s.jsonMapper, res, clazz)
    ensures s.ReadResourceWithId(res, clazz) == JsonApiUtil.ReadResourceWithId(s.jsonMapper, res, clazz)
    ensures s.ReadDataWithId(res, clazz) == JsonApiUtil.ReadDataWithId(s.jsonMapper, res, clazz)
    ensures s.ReadDataWithoutId(res, clazz) == JsonApiUtil.ReadDataWithoutId(s.jsonMapper, res, clazz)
    ensures s.ReadDataWithIds(arr, clazz) == JsonApiUtil.ReadDataWithIds(s.jsonMapper, arr, clazz)
  {
    if arr.Some? {
      var rs := arr.value;
      var mine := (r: Option<Resource>) => s.ReadResourceWithIdOrThrow(r, clazz);
      var theirs := (r: Option<Resource>) => JsonApiUtil.ReadResourceWithIdOrThrow(s.jsonMapper, r, clazz);
      forall r: Option<Resource> ensures mine(r) == theirs(r) {
        SameElementReader(s, r, clazz);
      }
      ReadAllSame(mine, theirs, rs);
    }
  }

  /** The service and the static reader read one element alike, when the mapper writes null as null. */
  lemma SameElementReader(s: Service, res: Option<Resource>, clazz: string)
    requires WritesNullAsNull(s.jsonMapper)
    ensures s.ReadResourceWithIdOrThrow(res, clazz) == JsonApiUtil.ReadResourceWithIdOrThrow(s.jsonMapper, res, clazz)
  {
  }

  /** Two element readers that agree on every resource read every array alike. */
  lemma {:induction false} ReadAllSame(f: ElementReader, g: ElementReader, rs: ResourceArray)
    requires forall r :: f(r) == g(r)
    ensures MapAll(f, rs) == MapAll(g, rs)
    decreases |rs|
  {
    if rs != [] {
      ReadAllSame(f, g, rs[..|rs| - 1]);
    }
  }

  /**
   * A mapper that cannot write null makes the service refuse a resource without attributes or relationships,
   * which the static reader reads as empty.
   */
  lemma ServiceRefusesNullWhenMapperCannotWriteIt(s: Service, res: Resource, clazz: string)
    requires s.jsonMapper.writeValueAsString(None).None?
    requires res.attributes.None? && res.relationships.None?
    ensures s.ReadResourceWithoutId(Some(res), clazz) == Err(BadRequest(UnexpectedFormat))
    ensures JsonApiUtil.ReadResourceWithoutId(s.jsonMapper, Some(res), clazz) == Ok(None)
  {
  }
}
