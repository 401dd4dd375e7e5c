/**
 * The two deserializers registered with the JSON decoder, each holding the mapper it was given.
 * They dispatch on the token's shape exactly as the codec functions do.
 */
module Serialization {
  import opened Wrappers
  import opened Documents
  import opened SerdeUtil

  /** JsonApiDataTypeDeserializer: decodes a `data` member with the resource reader of its mapper. */
  class DataTypeDeserializer {
    const readResource: ReadResource

    constructor(readResource: ReadResource)
      ensures this.readResource == readResource
    {
      this.readResource := readResource;
    }

    /** `toJsonApiArray`: reads each element of the list, in order, into a new list. */
    method ToJsonApiArray(list: seq<Json>) returns (r: Result<seq<Resource>>)
      ensures r.Ok? <==> forall i :: 0 <= i < |list| ==> DecodeItem(readResource, list[i]).Ok?
      ensures r.Ok? ==> |r.value| == |list| && forall i :: 0 <= i < |list| ==> r.value[i] == readResource(list[i].members).value
      ensures r.Err? ==> exists i :: FirstFailure(ItemDecoder(readResource), list, i) && r.error == DecodeItem(readResource, list[i]).error
    {
      var resources: seq<Resource> := [];
      var i := 0;
      while i < |list|
        invariant 0 <= i <= |list|
        invariant |resources| == i
        invariant forall j :: 0 <= j < i ==> list[j].JObject? && readResource(list[j].members) == Ok(resources[j])
      {
        var item := list[i];
        if !item.JObject? {
          assert FirstFailure(ItemDecoder(readResource), list, i);
          if item.JNull? {
            return Err(NullPointer);
          }
          return Err(IllegalArgument("Unexpected list item type: " + ClassName(item)));
        }
        var resource := readResource(item.members);
        if resource.Err? {
          assert FirstFailure(ItemDecoder(readResource), list, i);
          return resource.PropagateFailure();
        }
        resources := resources + [resource.value];
        i := i + 1;
      }
      r := Ok(resources);
    }

    /** `deserialize`: null, one resource, an array of resources, or a refusal; the same answer as the codec's. */
    method Deserialize(obj: Json) returns (r: Result<Option<DataValue>>)
      ensures r == DataTypeOf(readResource, obj)
    {
      if obj.JNull? {
        r := Ok(None);
      } else if obj.JObject? {
        var resource := readResource(obj.members);
        r := if resource.Err? then resource.PropagateFailure() else Ok(Some(Single(resource.value)));
      } else if obj.JArray? {
        var resources := ToJsonApiArray(obj.items);
        DecodeItemsSpec(readResource, obj.items);
        if resources.Err? {
          var i :| FirstFailure(ItemDecoder(readResource), obj.items, i) && resources.error == DecodeItem(readResource, obj.items[i]).error;
          FirstFailureUnique(ItemDecoder(readResource), obj.items, i);
          r := resources.PropagateFailure();
        } else {
          assert resources.value == DecodeItems(readResource, obj.items).value;
          r := Ok(Some(Array(AsArray(resources.value))));
        }
      } else {
        r := Err(IllegalArgument("Unexpected data type: " + ClassName(obj)));
      }
    }
  }

  /** JsonApiLinkTypeDeserializer: decodes one entry of a `links` member with the link-object reader of its mapper. */
  class LinkTypeDeserializer {
    const readLinkObject: ReadLinkObject

    constructor(readLinkObject: ReadLinkObject)
      ensures this.readLinkObject == readLinkObject
    {
      this.readLinkObject := readLinkObject;
    }

    /** `deserialize`: null, a link object, a link string, or a refusal; the same answer as the codec's. */
    function Deserialize(obj: Json): (r: Result<Option<Link>>)
      ensures r == DeserializeJsonApiLinkType(readLinkObject, obj)
      ensures obj.JString? ==> r.Ok? && r.value.Some? && r.value.value.ToUri() == obj.s
    {
      if obj.JNull? then Ok(None)
      else if obj.JObject? then
        var link :- readLinkObject(obj.members);
        Ok(Some(LinkObject(link)))
      else if obj.JString? then Ok(Some(LinkString(obj.s)))
      else Err(IllegalArgument("Unexpected data type: " + ClassName(obj)))
    }
  }
}
