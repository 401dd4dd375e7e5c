/**
 * The JSON:API document model as values: resource identifiers, resources, relationship objects,
 * the polymorphic primary data, links and error objects, and the entities that application code
 * turns into resources (each an explicit list of property descriptors).
 */
module Documents {
  import opened Wrappers
  import opened OrderedMaps

  /**
   * An attribute or meta value. Leaf values (strings, numbers, dates, enums) are opaque; a non-relation
   * property holding an entity or a collection keeps that property value; the `{ "id": ... }` maps built
   * from relationships are the last two kinds.
   */
  datatype Value =
    | Null
    | Scalar(repr: string)
    | Composite(pv: PropertyValue)
    | IdObject(ids: map<string, string>)
    | IdObjectList(idLists: seq<map<string, string>>)

  /** The members of a link object; `href` is its target. */
  datatype LinkObjectData = LinkObjectData(
    href: string,
    rel: Option<string>,
    describedby: Option<string>,
    title: Option<string>,
    mediaType: Option<string>,
    meta: Option<OMap<Value>>)

  /** A link is either a bare URI string or a link object. */
  datatype Link = LinkString(uri: string) | LinkObject(obj: LinkObjectData) {
    /** `toUri`: the string itself, or the object's `href`. */
    function ToUri(): string
    {
      match this
      case LinkString(uri) => uri
      case LinkObject(obj) => obj.href
    }
  }

  /** A `links` member: each name maps to a link or to null. */
  type Links = OMap<Option<Link>>

  /** A resource identifier: a type and an id that may be absent for a resource not yet created. */
  datatype Identifier = Identifier(rtype: string, id: Option<string>)

  /**
   * A resource object: identifier members plus attributes, relationships and links, each possibly null;
   * as in any Java map, a relationship name may be mapped to null.
   */
  datatype Resource = Resource(
    rtype: string,
    id: Option<string>,
    attributes: Option<OMap<Value>>,
    relationships: Option<OMap<Option<RelationshipObject>>>,
    links: Option<Links>)

  /** A JSON:API object as found under a relationship name (and the base of a top-level document). */
  datatype RelationshipObject = RelationshipObject(
    meta: Option<OMap<Value>>,
    links: Option<Links>,
    data: Option<DataValue>)

  /** The data under a relationship name: none for a null relationship object or a null `data` member. */
  function DataOf(rel: Option<RelationshipObject>): Option<DataValue>
  {
    if rel.None? then None else rel.value.data
  }

  /** Primary or relationship data: one identifier, one resource, or an array of resources. */
  datatype DataValue =
    | Ident(identifier: Identifier)
    | Single(resource: Resource)
    | Array(resources: ResourceArray)

  /** A JsonApiArray: a list of resources in which, as in any Java list, an element may be null. */
  type ResourceArray = seq<Option<Resource>>

  /** Resources that are all present, as a JsonApiArray. */
  function AsArray(rs: seq<Resource>): (r: ResourceArray)
    ensures |r| == |rs| && forall i :: 0 <= i < |rs| ==> r[i] == Some(rs[i])
  {
    seq(|rs|, i requires 0 <= i < |rs| => Some(rs[i]))
  }

  /** An error object; every member is optional. */
  datatype ErrorObject = ErrorObject(
    id: Option<string>,
    status: Option<string>,
    code: Option<string>,
    title: Option<string>,
    detail: Option<string>,
    meta: Option<OMap<Value>>)

  /**
   * An application entity that can become a resource: its resource type, its id as a JSON:API string
   * (absent for a new entity) and its bean properties in declaration order.
   */
  datatype Entity = Entity(rtype: string, jsonApiId: Option<string>, props: seq<Property>)

  /** A bean property with the three annotations that decide where it goes. */
  datatype Property = Property(name: string, isId: bool, isRelation: bool, ignore: bool, value: PropertyValue)

  /**
   * A property's value, by declared type: any other type, a type implementing JsonApiDataTypeable
   * (an entity or an arrayable, possibly null), or a java.util.Collection (possibly null).
   */
  datatype PropertyValue =
    | Plain(v: Value)
    | TypeableProp(t: Option<DataTypeable>)
    | CollectionProp(c: Option<seq<Element>>)

  /** A JsonApiDataTypeable: an entity, or a JsonApiArrayable (a list of entities, nulls allowed). */
  datatype DataTypeable = EntityRef(entity: Entity) | ArrayableRef(items: seq<Option<Entity>>)

  /** An element of a collection-typed property. */
  datatype Element = NullItem | EntityItem(entity: Entity) | OtherItem(v: Value)

  /** The value an attribute takes for a property: the property value itself. */
  function AttributeValue(pv: PropertyValue): Value
  {
    match pv
    case Plain(v) => v
    case _ => Composite(pv)
  }
}
