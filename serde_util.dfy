/**
 * Decoding of the two JSON:API members whose shape varies: primary or relationship `data` (null, one
 * resource object, or an array of them) and a link (null, a URI string, or a link object), from the
 * arbitrary token the JSON decoder hands over. Mapping an object's members onto a resource or a link
 * object is the JSON mapper's work and is a function parameter here.
 */
module SerdeUtil {
  import opened Wrappers
  import opened Documents

  /** A decoded JSON token: null, a Boolean, a number, a String, a List or a Map. */
  datatype Json =
    | JNull
    | JBool(b: bool)
    | JNumber(literal: string)
    | JString(s: string)
    | JArray(items: seq<Json>)
    | JObject(members: seq<(string, Json)>)

  /** The mapper step that turns the members of an object into a resource; it may fail. */
  type ReadResource = seq<(string, Json)> -> Result<Resource>

  /** The mapper step that turns the members of an object into a link object; it may fail. */
  type ReadLinkObject = seq<(string, Json)> -> Result<LinkObjectData>

  /** `getClass().getName()` of a non-null token; every number stands for the class of its boxed value. */
  function ClassName(j: Json): string
    requires !j.JNull?
  {
    match j
    case JBool(_) => "java.lang.Boolean"
    case JNumber(_) => "java.lang.Number"
    case JString(_) => "java.lang.String"
    case JArray(_) => "java.util.ArrayList"
    case JObject(_) => "java.util.LinkedHashMap"
  }

  /**
   * One element of a `data` array: an object is read as a resource; any other token is refused, and a null
   * element fails before the message can be built, since its class is asked for.
   */
  function DecodeItem(read: ReadResource, item: Json): (r: Result<Resource>)
    ensures item.JObject? ==> r == read(item.members)
    ensures item.JNull? ==> r == Err(NullPointer)
    ensures !item.JObject? && !item.JNull? ==> r == Err(IllegalArgument("Unexpected list item type: " + ClassName(item)))
  {
    match item
    case JObject(m) => read(m)
    case JNull => Err(NullPointer)
    case _ => Err(IllegalArgument("Unexpected list item type: " + ClassName(item)))
  }

  /** `DecodeItem` with the resource reader fixed, as one step of the loop over a `data` array. */
  function ItemDecoder(read: ReadResource): Json -> Result<Resource>
  {
    item => DecodeItem(read, item)
  }

  /** The resources of a `data` array, element by element; the first element that fails stops the decoding. */
  function DecodeItems(read: ReadResource, items: seq<Json>): Result<seq<Resource>>
  {
    MapAll(ItemDecoder(read), items)
  }

  /**
   * Decoding an array succeeds exactly when every element decodes, and then gives one resource per element
   * in the same order; otherwise the error is that of the first element that fails.
   */
  lemma DecodeItemsSpec(read: ReadResource, items: seq<Json>)
    ensures DecodeItems(read, items).Ok? <==> forall i :: 0 <= i < |items| ==> DecodeItem(read, items[i]).Ok?
    ensures DecodeItems(read, items).Ok? ==> |DecodeItems(read, items).value| == |items|
    ensures DecodeItems(read, items).Ok? ==> forall i :: 0 <= i < |items| ==>
      DecodeItems(read, items).value[i] == DecodeItem(read, items[i]).value
    ensures DecodeItems(read, items).Err? ==>
      exists i :: FirstFailure(ItemDecoder(read), items, i) && DecodeItems(read, items).error == DecodeItem(read, items[i]).error
  {
    MapAllSpec(ItemDecoder(read), items);
  }

  /** An array holding a token other than an object cannot be decoded. */
  lemma NonObjectItemFails(read: ReadResource, items: seq<Json>, i: nat)
    requires i < |items| && !items[i].JObject?
    ensures DecodeItems(read, items).Err?
  {
    DecodeItemsSpec(read, items);
  }

  /** `toJsonApiArray`: the loop that reads every element of a `data` array into a new list. */
  method ToJsonApiArray(read: ReadResource, list: seq<Json>) returns (r: Result<seq<Resource>>)
    ensures r == DecodeItems(read, list)
  {
    var l: seq<Resource> := [];
    for i := 0 to |list|
      invariant DecodeItems(read, list[..i]) == Ok(l)
    {
      var item := list[i];
      if item.JObject? {
        var resource := read(item.members);
        if resource.Err? {
          MapAllFailsAt(ItemDecoder(read), list, i, l);
          return resource.PropagateFailure();
        }
        MapAllSnoc(ItemDecoder(read), list, i, l, resource.value);
        l := l + [resource.value];
      } else if item.JNull? {
        MapAllFailsAt(ItemDecoder(read), list, i, l);
        return Err(NullPointer);
      } else {
        MapAllFailsAt(ItemDecoder(read), list, i, l);
        return Err(IllegalArgument("Unexpected list item type: " + ClassName(item)));
      }
    }
    assert list[..|list|] == list;
    r := Ok(l);
  }

  /**
   * `deserializeJsonApiDataType`: null data is null, an object is one resource, an array is an array of
   * resources (even with zero or one element), and any other token is refused.
   */
  function DataTypeOf(read: ReadResource, obj: Json): (r: Result<Option<DataValue>>)
    ensures obj.JNull? ==> r == Ok(None)
    ensures obj.JObject? ==> (r.Ok? <==> read(obj.members).Ok?)
    ensures obj.JObject? && r.Ok? ==> r.value == Some(Single(read(obj.members).value))
    ensures obj.JArray? ==> (r.Ok? <==> forall i :: 0 <= i < |obj.items| ==> DecodeItem(read, obj.items[i]).Ok?)
    ensures obj.JArray? && r.Ok? ==> r.value.Some? && r.value.value.Array? && |r.value.value.resources| == |obj.items|
    ensures obj.JArray? && r.Ok? ==> forall i :: 0 <= i < |obj.items| ==>
      obj.items[i].JObject? && r.value.value.resources[i] == Some(read(obj.items[i].members).value)
    ensures obj.JBool? || obj.JNumber? || obj.JString? ==>
      r == Err(IllegalArgument("Unexpected data type: " + ClassName(obj)))
  {
    match obj
    case JNull => Ok(None)
    case JObject(m) =>
      var resource :- read(m);
      Ok(Some(Single(resource)))
    case JArray(items) =>
      DecodeItemsSpec(read, items);
      var resources :- DecodeItems(read, items);
      Ok(Some(Array(AsArray(resources))))
    case _ => Err(IllegalArgument("Unexpected data type: " + ClassName(obj)))
  }

  /** `deserializeJsonApiDataType` as the dispatch on the token's shape. */
  method DeserializeJsonApiDataType(read: ReadResource, obj: Json) returns (r: Result<Option<DataValue>>)
    ensures r == DataTypeOf(read, obj)
  {
    if obj.JNull? {
      return Ok(None);
    } else if obj.JObject? {
      var resource := read(obj.members);
      if resource.Err? {
        return resource.PropagateFailure();
      }
      return Ok(Some(Single(resource.value)));
    } else if obj.JArray? {
      var resources := ToJsonApiArray(read, obj.items);
      if resources.Err? {
        return resources.PropagateFailure();
      }
      return Ok(Some(Array(AsArray(resources.value))));
    } else {
      return Err(IllegalArgument("Unexpected data type: " + ClassName(obj)));
    }
  }

  /**
   * `deserializeJsonApiLinkType`: null is no link, a string is a link string holding it, an object is read as a
   * link object, and any other token is refused.
   */
  function DeserializeJsonApiLinkType(readLinkObject: ReadLinkObject, obj: Json): (r: Result<Option<Link>>)
    ensures obj.JNull? ==> r == Ok(None)
    ensures obj.JString? ==> r.Ok? && r.value.Some? && r.value.value == LinkString(obj.s) && r.value.value.ToUri() == obj.s
    ensures obj.JObject? ==> (r.Ok? <==> readLinkObject(obj.members).Ok?)
    ensures obj.JObject? && r.Ok? ==> r.value == Some(LinkObject(readLinkObject(obj.members).value))
    ensures obj.JBool? || obj.JNumber? || obj.JArray? ==>
      r == Err(IllegalArgument("Unexpected data type: " + ClassName(obj)))
  {
    match obj
    case JNull => Ok(None)
    case JObject(m) =>
      var link :- readLinkObject(m);
      Ok(Some(LinkObject(link)))
    case JString(s) => Ok(Some(LinkString(s)))
    case _ => Err(IllegalArgument("Unexpected data type: " + ClassName(obj)))
  }

  /** `serializeJsonApiLinkString`: a link string is written as its bare URI. */
  function SerializeJsonApiLinkString(link: Link): (r: Json)
    requires link.LinkString?
    ensures r.JString? && r.s == link.ToUri()
  {
    JString(link.uri)
  }

  /** Writing a link string and reading it back gives the same link, and reading a string and writing it back gives the same string. */
  lemma LinkStringRoundTrip(readLinkObject: ReadLinkObject, link: Link, s: string)
    requires link.LinkString?
    ensures DeserializeJsonApiLinkType(readLinkObject, SerializeJsonApiLinkString(link)) == Ok(Some(link))
    ensures var decoded := DeserializeJsonApiLinkType(readLinkObject, JString(s));
      decoded.Ok? && decoded.value.Some? && decoded.value.value.LinkString? &&
      SerializeJsonApiLinkString(decoded.value.value) == JString(s)
  {
  }

  /** Writes resource data the way the mapper does: null, one object, or an array of objects and nulls. */
  function EncodeData(write: Resource -> seq<(string, Json)>, data: Option<DataValue>): (r: Json)
    requires data.Some? ==> !data.value.Ident?
    ensures data.None? <==> r.JNull?
    ensures data.Some? && data.value.Single? ==> r.JObject?
    ensures data.Some? && data.value.Array? ==> (r.JArray? && |r.items| == |data.value.resources| &&
      forall i :: 0 <= i < |r.items| ==> (r.items[i].JNull? <==> data.value.resources[i].None?))
  {
    match data
    case None => JNull
    case Some(Single(resource)) => JObject(write(resource))
    case Some(Array(rs)) =>
      JArray(seq(|rs|, i requires 0 <= i < |rs| => if rs[i].None? then JNull else JObject(write(rs[i].value))))
  }

  /** The data is not an array holding a null element. */
  predicate NoNullElement(data: Option<DataValue>)
  {
    data.Some? && data.value.Array? ==> None !in data.value.resources
  }

  /**
   * Decoding is a left inverse of writing: when the mapper reads back every resource it writes, decoding the
   * written data gives the data back, a one-element array staying an array. An array with a null element is
   * written, but its null is refused when read back.
   */
  lemma DataRoundTrip(read: ReadResource, write: Resource -> seq<(string, Json)>, data: Option<DataValue>)
    requires forall res :: read(write(res)) == Ok(res)
    requires data.Some? ==> !data.value.Ident?
    ensures NoNullElement(data) ==> DataTypeOf(read, EncodeData(write, data)) == Ok(data)
    ensures !NoNullElement(data) ==> DataTypeOf(read, EncodeData(write, data)) == Err(NullPointer)
  {
    if data.Some? && data.value.Array? {
      var rs := data.value.resources;
      var items := EncodeData(write, data).items;
      DecodeItemsSpec(read, items);
      assert forall i :: 0 <= i < |items| ==> DecodeItem(read, items[i]) == if rs[i].None? then Err(NullPointer) else Ok(rs[i].value);
      if NoNullElement(data) {
        assert forall i :: 0 <= i < |items| ==> rs[i].Some?;
        assert AsArray(DecodeItems(read, items).value) == rs;
      }
    }
  }
}
