/**
 * Operations of the document model classes: the `{ "id": ... }` maps built for the entity mapper,
 * the null-to-empty array constructors, the attribute merge of a resource and the top-level document
 * with its two list setters.
 */
module Model {
  import opened Wrappers
  import opened OrderedMaps
  import opened Documents

  /**
   * `JsonApiResourceIdentifier.toResourceIds`: a map whose only key is "id", holding the id; the type is
   * left out. `Map.of` refuses a null value, so a missing id fails.
   */
  function ResourceIds(id: Option<string>): (r: Result<map<string, string>>)
    ensures r.Err? <==> id.None?
    ensures r.Err? ==> r.error == NullPointer
    ensures r.Ok? ==> r.value.Keys == {"id"} && r.value["id"] == id.value
  {
    match id
    case None => Err(NullPointer)
    case Some(s) => Ok(map["id" := s])
  }

  /** The element is a resource that has an id. */
  predicate HasId(res: Option<Resource>)
  {
    res.Some? && res.value.id.Some?
  }

  /**
   * `JsonApiArray.toResourceIds`: one `{ "id": ... }` map per resource, in order; a null element (its method
   * reference is called on null) or a resource without an id fails the whole stream.
   */
  function ArrayResourceIds(rs: ResourceArray): (r: Result<seq<map<string, string>>>)
    ensures r.Err? <==> exists i :: 0 <= i < |rs| && !HasId(rs[i])
    ensures r.Err? ==> r.error == NullPointer
    ensures r.Ok? ==> |r.value| == |rs|
    ensures r.Ok? ==> forall i :: 0 <= i < |rs| ==> r.value[i] == map["id" := rs[i].value.id.value]
  {
    if rs == [] then Ok([])
    else
      var first :- if rs[0].None? then Err(NullPointer) else ResourceIds(rs[0].value.id);
      var rest :- ArrayResourceIds(rs[1..]);
      assert forall i :: 1 <= i < |rs| ==> rs[i] == rs[1..][i - 1];
      Ok([first] + rest)
  }

  /** The id of single-valued data: an identifier or one resource. */
  function SingleId(d: DataValue): Option<string>
    requires !d.Array?
  {
    if d.Ident? then d.identifier.id else d.resource.id
  }

  /** `JsonApiDataType.toResourceIds` on relationship data: an identifier map, or a list of them for an array. */
  function DataResourceIds(d: DataValue): (r: Result<Value>)
    ensures !d.Array? ==> (r.Ok? <==> SingleId(d).Some?)
    ensures !d.Array? && r.Ok? ==> r.value == IdObject(map["id" := SingleId(d).value])
    ensures d.Array? ==> (r.Ok? <==> forall i :: 0 <= i < |d.resources| ==> HasId(d.resources[i]))
    ensures d.Array? && r.Ok? ==> (r.value.IdObjectList? && |r.value.idLists| == |d.resources| &&
      forall i :: 0 <= i < |d.resources| ==> r.value.idLists[i] == map["id" := d.resources[i].value.id.value])
    ensures r.Err? ==> r.error == NullPointer
  {
    match d
    case Ident(i) => var ids :- ResourceIds(i.id); Ok(IdObject(ids))
    case Single(res) => var ids :- ResourceIds(res.id); Ok(IdObject(ids))
    case Array(rs) => var ids :- ArrayResourceIds(rs); Ok(IdObjectList(ids))
  }

  /**
   * The list constructors of JsonApiArray and JsonApiArrayable: a null list gives an empty one,
   * otherwise the same elements in the same order. (The no-argument constructors give `[]`.)
   */
  function CopyOrEmpty<T>(list: Option<seq<T>>): (r: seq<T>)
    ensures list.None? ==> r == []
    ensures list.Some? ==> r == list.value
  {
    if list.None? then [] else list.value
  }

  /** `CollectionUtils.isEmpty` on a map: null or without entries. */
  predicate IsEmptyMap<V>(m: Option<OMap<V>>)
  {
    m.None? || m.value == []
  }

  /** The attributes after `putAllAttributes(newAttributes)`. */
  function MergedAttributes(current: Option<OMap<Value>>, newAttributes: Option<OMap<Value>>): Option<OMap<Value>>
  {
    if IsEmptyMap(newAttributes) then current
    else if IsEmptyMap(current) then newAttributes
    else Some(PutAll(current.value, newAttributes.value))
  }

  /** Null or empty new attributes change nothing; null or empty current attributes are replaced outright. */
  lemma MergeEdgeCases(current: Option<OMap<Value>>, newAttributes: Option<OMap<Value>>)
    ensures IsEmptyMap(newAttributes) ==> MergedAttributes(current, newAttributes) == current
    ensures !IsEmptyMap(newAttributes) && IsEmptyMap(current) ==> MergedAttributes(current, newAttributes) == newAttributes
    ensures !IsEmptyMap(newAttributes) ==> MergedAttributes(current, newAttributes).Some?
  {
  }

  /**
   * When both maps have entries: the old keys stay in their order and the keys met only in the new map
   * follow in their order there; a clashing key takes the new value, the other old keys keep theirs.
   */
  lemma MergeOrderAndValues(current: OMap<Value>, newAttributes: OMap<Value>, k: string)
    requires current != [] && newAttributes != [] && DistinctKeys(newAttributes)
    ensures MergedAttributes(Some(current), Some(newAttributes)).Some?
    ensures var merged := MergedAttributes(Some(current), Some(newAttributes)).value;
      Keys(merged) == Keys(current) + NewKeys(Keys(newAttributes), Keys(current)) &&
      Get(merged, k) == if k in Keys(newAttributes) then Get(newAttributes, k) else Get(current, k)
  {
    var merged := PutAll(current, newAttributes);
    assert MergedAttributes(Some(current), Some(newAttributes)) == Some(merged);
    PutAllKeys(current, newAttributes);
    PutAllGet(current, newAttributes, k);
  }

  /** A JsonApiResource, whose attribute map `putAllAttributes` replaces in place. */
  class ResourceObject {
    var rtype: string
    var id: Option<string>
    var attributes: Option<OMap<Value>>
    var relationships: Option<OMap<Option<RelationshipObject>>>
    var links: Option<Links>

    /** The builder constructor stores every member as given; links stay null. */
    constructor(rtype: string, id: Option<string>, attributes: Option<OMap<Value>>,
                relationships: Option<OMap<Option<RelationshipObject>>>)
      ensures this.rtype == rtype && this.id == id
      ensures this.attributes == attributes && this.relationships == relationships
      ensures this.links.None?
    {
      this.rtype := rtype;
      this.id := id;
      this.attributes := attributes;
      this.relationships := relationships;
      this.links := None;
    }

    /** The resource as a value. */
    function AsValue(): Resource
      reads this
    {
      Resource(rtype, id, attributes, relationships, links)
    }

    /** Adds `newAttributes`, whose values replace the old ones on equal keys. */
    method PutAllAttributes(newAttributes: Option<OMap<Value>>)
      modifies this
      ensures attributes == MergedAttributes(old(attributes), newAttributes)
      ensures rtype == old(rtype) && id == old(id)
      ensures relationships == old(relationships) && links == old(links)
    {
      if !IsEmptyMap(newAttributes) {
        if IsEmptyMap(attributes) {
          attributes := newAttributes;
        } else {
          var result := attributes.value;
          result := PutAll(result, newAttributes.value);
          attributes := Some(result);
        }
      }
    }
  }

  /** A JsonApiTopLevelObject (and its JsonApiTopLevelArray form): the document returned to the client. */
  class TopLevelDocument {
    var meta: Option<OMap<Value>>
    var links: Option<Links>
    var data: Option<DataValue>
    var errors: Option<seq<ErrorObject>>
    var included: Option<ResourceArray>

    /** The builder constructor stores meta, data, errors and included as given; links stay null. */
    constructor(meta: Option<OMap<Value>>, data: Option<DataValue>, errors: Option<seq<ErrorObject>>,
                included: Option<ResourceArray>)
      ensures this.meta == meta && this.data == data
      ensures this.errors == errors && this.included == included
      ensures this.links.None?
    {
      this.meta := meta;
      this.links := None;
      this.data := data;
      this.errors := errors;
      this.included := included;
    }

    /** `setIncluded`: null stays null, a list is copied into a JsonApiArray with the same resources in order. */
    method SetIncluded(list: Option<ResourceArray>)
      modifies this`included
      ensures list.None? ==> included.None?
      ensures list.Some? ==> included == Some(list.value)
    {
      included := if list.None? then None else Some(CopyOrEmpty(list));
    }

    /**
     * JsonApiTopLevelArray's `setData`: null stays null, a list becomes array data with the same resources
     * in order, so a one-element list is still an array and never a single resource.
     */
    method SetArrayData(list: Option<ResourceArray>)
      modifies this`data
      ensures list.None? ==> data.None?
      ensures list.Some? ==> data == Some(Array(list.value))
    {
      data := if list.None? then None else Some(Array(CopyOrEmpty(list)));
    }
  }
}
