# micronaut-json-api, modelled in Dafny

This project models the core of micronaut-json-api. The library lets a Micronaut application read and
write JSON:API documents. The model covers four parts:

- **The include processor** (`IncludeProcessor`). It validates the raw `include` query parameter against
  the supported relationship paths and builds the active include list: every named path with all its parent
  paths, each path's first supported retriever, sorted by path. It then walks that list level by level. For
  each entry it collects the ids of the relationship in the current resources and calls the entry's fetch
  function only when there are ids. The fetched resources are appended, then the walk recurses into them
  with the entry's child paths, its contiguous run of following `path.` entries with the prefix stripped.
- **The codec** (`SerdeUtil`, `Serialization`). A `data` member decodes to null, one resource or an array of
  resources. A link decodes to null, a link string or a link object. Any other token is refused with the
  source's messages.
- **The document model** (`Documents`, `Model`, `Identifiable`):
  - resources, resource identifiers and top-level documents, with the in-place `putAllAttributes`,
    `setIncluded` and `setData`;
  - the `{ "id": ... }` maps of `toResourceIds`;
  - the projection of an application entity onto a resource. Bean properties are split into attributes and
    relationships. A relationship becomes a relationship object holding only type and id.
- **The readers** (`JsonApiUtil`, `JsonApiService`). They read the primary data's id, either translated or
  parsed as a Java `long` (`JavaLong`). They read the primary data as an entity: the attributes are merged
  with one id map per relationship and handed to the JSON mapper. The id is applied when asked for, and a
  null value is refused when the reader must return one.

Java's `LinkedHashMap` is an association list in insertion order (`OrderedMaps`). Java's `String.trim`,
`split`, `lastIndexOf`, `startsWith` and `compareTo` (by code point) are written out in `JavaStrings`. The JSON mapper, the
decoder's mapping of an object onto a resource or a link object, and each retriever's fetch are function
parameters. Their I/O failures are the `None` or `Err` results of those functions. An exception thrown by
the source is an `Err` carrying a `BadRequest` (an `HttpStatusException` with status BAD_REQUEST and its
message), an `IllegalArgument`, or a `NullPointer`.

## Model

| member | source | states |
|---|---|---|
| OrderedMaps.PutAllGet | micronaut-json-api/src/main/java/io/github/baylorpaul/micronautjsonapi/model/JsonApiResource.java:51-52 | after `putAll`, a key of the added map has the added value and any other key keeps its old value |
| OrderedMaps.PutAllKeys | micronaut-json-api/src/main/java/io/github/baylorpaul/micronautjsonapi/model/JsonApiResource.java:51-52 | `putAll` keeps the old keys in their order and appends the added map's new keys in the added map's order |
| OrderedMaps.PutAllDistinct | micronaut-json-api/src/main/java/io/github/baylorpaul/micronautjsonapi/model/JsonApiResource.java:51-52 | `putAll` never repeats a key |
| JavaStrings.TrimIsInfix | micronaut-json-api/src/main/java/io/github/baylorpaul/micronautjsonapi/util/JsonApiIncludeProcessor.java:58 | `trim()` is a slice of the string with only characters at most a space cut from either end, and a non-empty result starts and ends with a kept character |
| JavaStrings.TrimKeeps | micronaut-json-api/src/main/java/io/github/baylorpaul/micronautjsonapi/util/JsonApiIncludeProcessor.java:58 | a string that starts and ends with a character above a space is its own `trim()` |
| JavaStrings.BlankIffAllTrimmed | micronaut-json-api/src/main/java/io/github/baylorpaul/micronautjsonapi/util/JsonApiIncludeProcessor.java:49 | `trim().isEmpty()` holds exactly when every character is at most a space |
| JavaStrings.JoinPieces | micronaut-json-api/src/main/java/io/github/baylorpaul/micronautjsonapi/util/JsonApiIncludeProcessor.java:54 | the pieces between commas joined back with commas give the raw value |
| JavaStrings.PiecesJoin | micronaut-json-api/src/main/java/io/github/baylorpaul/micronautjsonapi/util/JsonApiIncludeProcessor.java:54 | comma-free pieces joined with commas split back into the same pieces |
| JavaStrings.DropTrailingEmpty | micronaut-json-api/src/main/java/io/github/baylorpaul/micronautjsonapi/util/JsonApiIncludeProcessor.java:54 | `split` drops exactly the trailing empty strings and keeps the rest in order |
| JavaStrings.LastIndexOf | micronaut-json-api/src/main/java/io/github/baylorpaul/micronautjsonapi/util/JsonApiIncludeProcessor.java:68 | -1 exactly when the character is absent, otherwise the index of its last occurrence |
| JavaStrings.LexLessProperPrefix | micronaut-json-api/src/main/java/io/github/baylorpaul/micronautjsonapi/util/JsonApiIncludeProcessor.java:62 | a proper prefix sorts before the longer string, so a parent path sorts before its children |
| JavaStrings.LexLessIrreflexive | micronaut-json-api/src/main/java/io/github/baylorpaul/micronautjsonapi/util/JsonApiIncludeProcessor.java:62 | no path sorts before itself |
| JavaStrings.LexLessTransitive | micronaut-json-api/src/main/java/io/github/baylorpaul/micronautjsonapi/util/JsonApiIncludeProcessor.java:62 | the sort order on paths is transitive |
| JavaStrings.LexLessTotal | micronaut-json-api/src/main/java/io/github/baylorpaul/micronautjsonapi/util/JsonApiIncludeProcessor.java:62 | of two different paths, one sorts before the other |
| JavaStrings.LexLessAsymmetric | micronaut-json-api/src/main/java/io/github/baylorpaul/micronautjsonapi/util/JsonApiIncludeProcessor.java:62 | two paths never sort before each other |
| JavaLong.ParseLong | micronaut-json-api/src/main/java/io/github/baylorpaul/micronautjsonapi/util/JsonApiUtil.java:79-85 | a parsed id lies in the 64-bit range, is neither empty nor a lone sign, and is digits after an optional sign |
| JavaLong.NatToStringValue | micronaut-json-api/src/main/java/io/github/baylorpaul/micronautjsonapi/util/JsonApiUtil.java:81 | the decimal digits of a number are a non-empty digit run whose value is that number |
| JavaLong.ParseLongToString | micronaut-json-api/src/main/java/io/github/baylorpaul/micronautjsonapi/util/JsonApiUtil.java:81 | `Long.valueOf` inverts `Long.toString` on the 64-bit range and refuses the decimal form of any number outside it |
| JavaLong.LeadingZeroIgnored | micronaut-json-api/src/main/java/io/github/baylorpaul/micronautjsonapi/util/JsonApiUtil.java:81 | a leading zero does not change the parsed value |
| JavaLong.RejectsNonDigit | micronaut-json-api/src/main/java/io/github/baylorpaul/micronautjsonapi/util/JsonApiUtil.java:81-83 | any character that is not a digit, other than a leading sign, makes parsing fail |
| JavaLong.ParsesDigits | micronaut-json-api/src/main/java/io/github/baylorpaul/micronautjsonapi/util/JsonApiUtil.java:81 | a digit run, bare or after '+', parses to its value exactly when the value is at most `Long.MAX_VALUE`; after '-' it parses to the negation exactly when that is at least `Long.MIN_VALUE` |
| Model.ResourceIds | micronaut-json-api/src/main/java/io/github/baylorpaul/micronautjsonapi/model/JsonApiResourceIdentifier.java:41-47 | the map is exactly `{ "id": id }`; a null id fails with a NullPointerException, as `Map.of` does |
| Model.ArrayResourceIds | micronaut-json-api/src/main/java/io/github/baylorpaul/micronautjsonapi/model/JsonApiArray.java:36-41 | one `{ "id": ... }` map per element, in order, element i giving `{ "id": id }` of resource i; fails with a NullPointerException exactly when some element is null or has a null id |
| Model.DataResourceIds | micronaut-json-api/src/main/java/io/github/baylorpaul/micronautjsonapi/util/JsonApiUtil.java:168-169 | single data gives `{ "id": id }` exactly when its id is present; array data gives, element by element, `{ "id": id }` of that element exactly when every element is present with an id; a NullPointerException otherwise |
| Model.CopyOrEmpty | micronaut-json-api/src/main/java/io/github/baylorpaul/micronautjsonapi/model/JsonApiArray.java:22-24 | the JsonApiArray copy constructor gives an empty list for null and the same elements otherwise |
| Model.MergeEdgeCases | micronaut-json-api/src/main/java/io/github/baylorpaul/micronautjsonapi/model/JsonApiResource.java:46-50 | empty new attributes leave the attributes unchanged; when the current attributes are empty the new map is taken as it is |
| Model.MergeOrderAndValues | micronaut-json-api/src/main/java/io/github/baylorpaul/micronautjsonapi/model/JsonApiResource.java:50-54 | merging two non-empty maps keeps the old keys first, new keys after; a key of the new map gets the new value |
| Model.ResourceObject.constructor | micronaut-json-api/src/main/java/io/github/baylorpaul/micronautjsonapi/model/JsonApiResource.java:34-39 | the builder stores type, id, attributes and relationships as given |
| Model.ResourceObject.PutAllAttributes | micronaut-json-api/src/main/java/io/github/baylorpaul/micronautjsonapi/model/JsonApiResource.java:46-56 | the attributes become the merge of the old and new maps and nothing else changes |
| Model.TopLevelDocument.constructor | micronaut-json-api/src/main/java/io/github/baylorpaul/micronautjsonapi/model/JsonApiTopLevelObject.java:37-47 | the builder stores meta, data, errors and included as given |
| Model.TopLevelDocument.SetIncluded | micronaut-json-api/src/main/java/io/github/baylorpaul/micronautjsonapi/model/JsonApiTopLevelObject.java:56-58 | null stays null; a list becomes an included array with the same resources in order |
| Model.TopLevelDocument.SetArrayData | micronaut-json-api/src/main/java/io/github/baylorpaul/micronautjsonapi/model/JsonApiTopLevelArray.java:28-30 | null stays null; a list becomes array data with the same resources, so a one-element list is still an array |
| Identifiable.CollectInPropertyOrder | micronaut-json-api/src/main/java/io/github/baylorpaul/micronautjsonapi/identifiable/JsonApiResourceable.java:28-41 | with distinct property names, the map the property loop builds is exactly the accepted properties with their values, in property order |
| Identifiable.CollectDistinct | micronaut-json-api/src/main/java/io/github/baylorpaul/micronautjsonapi/identifiable/JsonApiResourceable.java:30-39 | the property loop never puts one key twice |
| Identifiable.SelectedKeys | micronaut-json-api/src/main/java/io/github/baylorpaul/micronautjsonapi/identifiable/JsonApiResourceable.java:31-39 | every key of the built map names a property that was accepted |
| Identifiable.AttributeOf | micronaut-json-api/src/main/java/io/github/baylorpaul/micronautjsonapi/identifiable/JsonApiResourceable.java:32-38 | a property is an attribute exactly when it is neither id, nor relation, nor ignored, and it keeps its value |
| Identifiable.ToJsonApiAttributes | micronaut-json-api/src/main/java/io/github/baylorpaul/micronautjsonapi/identifiable/JsonApiResourceable.java:28-41 | `toJsonApiAttributes` returns the attribute partition of the properties, in property order |
| Identifiable.KeepResourceablesSpec | micronaut-json-api/src/main/java/io/github/baylorpaul/micronautjsonapi/identifiable/JsonApiResourceable.java:72-76 | nulls and entities are kept and nothing else is; a collection of only nulls and entities is kept element for element |
| Identifiable.KeepAppend | micronaut-json-api/src/main/java/io/github/baylorpaul/micronautjsonapi/identifiable/JsonApiResourceable.java:72-76 | the kept elements of a concatenation are those of each part, one after the other, so order and repeats survive whatever is dropped |
| Identifiable.ArrayableOf | micronaut-json-api/src/main/java/io/github/baylorpaul/micronautjsonapi/identifiable/JsonApiResourceable.java:68-80 | a null collection gives null, any other collection gives an arrayable |
| Identifiable.MapToJsonApiArrayable | micronaut-json-api/src/main/java/io/github/baylorpaul/micronautjsonapi/identifiable/JsonApiResourceable.java:68-80 | the loop builds `ArrayableOf(c)`: null for a null collection, otherwise the arrayable of the kept nulls and entities, in order by `KeepAppend` |
| Identifiable.RelationshipOf | micronaut-json-api/src/main/java/io/github/baylorpaul/micronautjsonapi/identifiable/JsonApiResourceable.java:51-63 | a property is a relationship exactly when it is a relation, neither id nor ignored, and entity- or collection-typed; an entity is put as it is, a collection as an arrayable |
| Identifiable.ToRelationships | micronaut-json-api/src/main/java/io/github/baylorpaul/micronautjsonapi/identifiable/JsonApiResourceable.java:47-66 | `toRelationships` returns the relationship partition of the properties, in property order |
| Identifiable.IdOnly | micronaut-json-api/src/main/java/io/github/baylorpaul/micronautjsonapi/identifiable/JsonApiResourceable.java:112-118 | the projection keeps type and id and carries no attributes, relationships or links |
| Identifiable.ArrayableIdOnly | micronaut-json-api/src/main/java/io/github/baylorpaul/micronautjsonapi/identifiable/JsonApiArrayable.java:29-34 | one type-and-id resource per element, in order; fails with a NullPointerException exactly when an element is null |
| Identifiable.ToJsonApiObject | micronaut-json-api/src/main/java/io/github/baylorpaul/micronautjsonapi/identifiable/JsonApiResourceable.java:101-107 | a relationship object without meta or links whose data is null exactly when the value is null; an entity gives its type-and-id projection; an arrayable value fails exactly when it holds a null item, and otherwise gives an array whose element i is the projection of item i |
| Identifiable.RelationshipObjectsErr | micronaut-json-api/src/main/java/io/github/baylorpaul/micronautjsonapi/identifiable/JsonApiResourceable.java:86-96 | building the relationship objects fails exactly when one relationship fails |
| Identifiable.RelationshipObjectsInOrder | micronaut-json-api/src/main/java/io/github/baylorpaul/micronautjsonapi/identifiable/JsonApiResourceable.java:86-96 | on success entry i of the result is relationship i's name with its relationship object |
| Identifiable.RelationshipObjectsErrExtends | micronaut-json-api/src/main/java/io/github/baylorpaul/micronautjsonapi/identifiable/JsonApiResourceable.java:91-93 | the first failing relationship ends the loop with its error |
| Identifiable.ToJsonApiRelationships | micronaut-json-api/src/main/java/io/github/baylorpaul/micronautjsonapi/identifiable/JsonApiResourceable.java:86-96 | `toJsonApiRelationships` builds the relationship objects of the relationship partition |
| Identifiable.ResourceOfSpec | micronaut-json-api/src/main/java/io/github/baylorpaul/micronautjsonapi/identifiable/JsonApiResourceable.java:124-131 | `toResource` keeps type and id, carries the attribute partition; its relationship i is named after relationship property i and holds that property's relationship object; it fails exactly when a relationship fails |
| Identifiable.ToResource | micronaut-json-api/src/main/java/io/github/baylorpaul/micronautjsonapi/identifiable/JsonApiResourceable.java:124-131 | `toResource` calls the attribute and relationship builders and agrees with the resource specification |
| Identifiable.ToTopLevelResource | micronaut-json-api/src/main/java/io/github/baylorpaul/micronautjsonapi/identifiable/JsonApiResourceable.java:137-141 | a new document whose data is the resource and whose other members are null |
| Identifiable.ResourcesOfSpec | micronaut-json-api/src/main/java/io/github/baylorpaul/micronautjsonapi/model/JsonApiArray.java:30-34 | element i is the resource of entity i; fails exactly when some entity is null or fails, with the first failing element's error, a NullPointerException for a null entity |
| Identifiable.ArrayOfEntities | micronaut-json-api/src/main/java/io/github/baylorpaul/micronautjsonapi/model/JsonApiArray.java:30-34 | a null collection gives an empty array, otherwise the resources of the entities in order |
| SerdeUtil.DecodeItem | micronaut-json-api/src/main/java/io/github/baylorpaul/micronautjsonapi/util/JsonApiSerdeUtil.java:90-95 | an object element is read as a resource, a null element is a NullPointerException, any other element is refused with its class name |
| SerdeUtil.DecodeItemsSpec | micronaut-json-api/src/main/java/io/github/baylorpaul/micronautjsonapi/util/JsonApiSerdeUtil.java:88-98 | the list decodes exactly when every element does, element for element; otherwise the error is that of the first failing element |
| SerdeUtil.NonObjectItemFails | micronaut-json-api/src/main/java/io/github/baylorpaul/micronautjsonapi/util/JsonApiSerdeUtil.java:91-95 | one element that is not an object makes the whole list fail |
| Wrappers.MapAllErrExtends | micronaut-json-api/src/main/java/io/github/baylorpaul/micronautjsonapi/util/JsonApiSerdeUtil.java:90-96 | once a prefix fails, the later elements are never read |
| SerdeUtil.ToJsonApiArray | micronaut-json-api/src/main/java/io/github/baylorpaul/micronautjsonapi/util/JsonApiSerdeUtil.java:88-98 | the loop over the list agrees with the list decoding |
| SerdeUtil.DataTypeOf | micronaut-json-api/src/main/java/io/github/baylorpaul/micronautjsonapi/util/JsonApiSerdeUtil.java:52-62 | null gives null, an object one resource, a list an array of the same length and order; any other token is refused with "Unexpected data type" |
| SerdeUtil.DeserializeJsonApiDataType | micronaut-json-api/src/main/java/io/github/baylorpaul/micronautjsonapi/util/JsonApiSerdeUtil.java:52-62 | the dispatch agrees with the `data` decoding |
| SerdeUtil.DeserializeJsonApiLinkType | micronaut-json-api/src/main/java/io/github/baylorpaul/micronautjsonapi/util/JsonApiSerdeUtil.java:72-82 | null gives null, a string a link string with that URI, an object a link object; any other token is refused |
| SerdeUtil.SerializeJsonApiLinkString | micronaut-json-api/src/main/java/io/github/baylorpaul/micronautjsonapi/util/JsonApiSerdeUtil.java:30-32 | a link string is written as the JSON string of its URI |
| SerdeUtil.LinkStringRoundTrip | micronaut-json-api/src/test/java/io/github/baylorpaul/micronautjsonapi/util/JsonApiTest.java:265-304 | decoding a written link string gives the same link, and any JSON string decodes to a link whose URI is that string |
| SerdeUtil.EncodeData | micronaut-json-api/src/main/java/io/github/baylorpaul/micronautjsonapi/util/JsonApiSerdeUtil.java:52-62 | the inverse direction: null data is written as JSON null, a resource as a JSON object, array data as a list of the same length whose JSON nulls are exactly the null elements |
| SerdeUtil.DataRoundTrip | micronaut-json-api/src/test/java/io/github/baylorpaul/micronautjsonapi/util/JsonApiTest.java:98-106 | with a mapper that reads back what it writes, decoding written data gives the same data, a one-element array staying an array; an array with a null element is refused with a NullPointerException when read back |
| Serialization.DataTypeDeserializer.constructor | micronaut-json-api/src/main/java/io/github/baylorpaul/micronautjsonapi/serialization/JsonApiDataTypeDeserializer.java:38-39 | the deserializer keeps the mapper it is given |
| Serialization.DataTypeDeserializer.ToJsonApiArray | micronaut-json-api/src/main/java/io/github/baylorpaul/micronautjsonapi/serialization/JsonApiDataTypeDeserializer.java:62-72 | succeeds exactly when every element reads, element i then being the resource of element i; otherwise the error of the first failing element |
| Serialization.DataTypeDeserializer.Deserialize | micronaut-json-api/src/main/java/io/github/baylorpaul/micronautjsonapi/serialization/JsonApiDataTypeDeserializer.java:42-56 | gives the same answer as the codec's `data` decoding |
| Wrappers.FirstFailureUnique | micronaut-json-api/src/main/java/io/github/baylorpaul/micronautjsonapi/serialization/JsonApiDataTypeDeserializer.java:64-70 | the first failing element is unique, so the decoding error is its error |
| Serialization.LinkTypeDeserializer.constructor | micronaut-json-api/src/main/java/io/github/baylorpaul/micronautjsonapi/serialization/JsonApiLinkTypeDeserializer.java:25-26 | the deserializer keeps the mapper it is given |
| Serialization.LinkTypeDeserializer.Deserialize | micronaut-json-api/src/main/java/io/github/baylorpaul/micronautjsonapi/serialization/JsonApiLinkTypeDeserializer.java:29-43 | gives the same answer as the codec's link decoding; a string becomes a link whose URI is that string |
| IncludeProcessor.FirstWithPath | micronaut-json-api/src/main/java/io/github/baylorpaul/micronautjsonapi/util/JsonApiIncludeProcessor.java:72-73 | none exactly when no supported retriever has the path, otherwise the index of the first one that has it |
| IncludeProcessor.Ancestors | micronaut-json-api/src/main/java/io/github/baylorpaul/micronautjsonapi/util/JsonApiIncludeProcessor.java:66-71 | the paths `findParentPaths` visits, ending with the path itself |
| IncludeProcessor.AncestorsArePrefixes | micronaut-json-api/src/main/java/io/github/baylorpaul/micronautjsonapi/util/JsonApiIncludeProcessor.java:68-70 | every visited path is a prefix of the path, and they come in order of increasing length |
| IncludeProcessor.AncestorsAreDotPrefixes | micronaut-json-api/src/main/java/io/github/baylorpaul/micronautjsonapi/util/JsonApiIncludeProcessor.java:66-71 | a path is visited exactly when it is the path or the part before one of its dots |
| IncludeProcessor.AncestorsParentClosed | micronaut-json-api/src/main/java/io/github/baylorpaul/micronautjsonapi/util/JsonApiIncludeProcessor.java:68-70 | the parent of every visited path with a dot is visited too |
| IncludeProcessor.FindParentPathsSpec | micronaut-json-api/src/main/java/io/github/baylorpaul/micronautjsonapi/util/JsonApiIncludeProcessor.java:66-76 | succeeds exactly when every visited path is supported, giving each one's first supported retriever, root first; otherwise refuses the shortest unsupported one with its message |
| IncludeProcessor.Segments | micronaut-json-api/src/main/java/io/github/baylorpaul/micronautjsonapi/util/JsonApiIncludeProcessor.java:54-58 | the segments are the trimmed pieces of the comma split, one per piece |
| IncludeProcessor.AncestorSetMembers | micronaut-json-api/src/main/java/io/github/baylorpaul/micronautjsonapi/util/JsonApiIncludeProcessor.java:57-60 | the activated paths are exactly the visited paths of the segments |
| IncludeProcessor.LeastExists | micronaut-json-api/src/main/java/io/github/baylorpaul/micronautjsonapi/util/JsonApiIncludeProcessor.java:61-62 | every non-empty set of paths has a least path in the sort order |
| IncludeProcessor.StrictlySortedUnique | micronaut-json-api/src/main/java/io/github/baylorpaul/micronautjsonapi/util/JsonApiIncludeProcessor.java:61-62 | two strictly sorted path lists with the same members are equal |
| IncludeProcessor.ActiveListUnique | micronaut-json-api/src/main/java/io/github/baylorpaul/micronautjsonapi/util/JsonApiIncludeProcessor.java:56-63 | the active list is determined by the supported list and the activated paths |
| IncludeProcessor.ActiveListParentClosed | micronaut-json-api/src/main/java/io/github/baylorpaul/micronautjsonapi/util/JsonApiIncludeProcessor.java:32 | the parent of every active path with a dot is active too |
| IncludeProcessor.PutAllByPath | micronaut-json-api/src/main/java/io/github/baylorpaul/micronautjsonapi/util/JsonApiIncludeProcessor.java:58-59 | the keys become the old keys plus every put path; the result is `PutAll`, the puts applied in order, and each path holds the last retriever put under it, or its old entry when none was |
| IncludeProcessor.PutAllLastWins | micronaut-json-api/src/main/java/io/github/baylorpaul/micronautjsonapi/util/JsonApiIncludeProcessor.java:58-59 | after the first j puts every path holds the last of them put under it, or its old entry when none of them was |
| IncludeProcessor.SortByPath | micronaut-json-api/src/main/java/io/github/baylorpaul/micronautjsonapi/util/JsonApiIncludeProcessor.java:61-63 | the values of the map strictly sorted by path, with no path lost or added |
| IncludeProcessor.SegmentAdded | micronaut-json-api/src/main/java/io/github/baylorpaul/micronautjsonapi/util/JsonApiIncludeProcessor.java:57-60 | after a segment the map holds the visited paths so far, each with its first supported retriever |
| IncludeProcessor.MapSegments | micronaut-json-api/src/main/java/io/github/baylorpaul/micronautjsonapi/util/JsonApiIncludeProcessor.java:56-60 | the loop succeeds exactly when every segment is accepted, mapping each visited path to its first supported retriever; otherwise the error of the first refused segment |
| IncludeProcessor.ValidateIncludes | micronaut-json-api/src/main/java/io/github/baylorpaul/micronautjsonapi/util/JsonApiIncludeProcessor.java:48-64 | null or blank gives null; without supported paths BAD_REQUEST; otherwise the active list of the visited paths, or the first refused segment's error |
| IncludeProcessor.RelationshipIdOf | micronaut-json-api/src/main/java/io/github/baylorpaul/micronautjsonapi/util/JsonApiIncludeProcessor.java:180-195 | an id is found exactly when the element is non-null, its relationship under the path is present and non-null, and its data is a single resource or identifier with an id; array data gives none |
| IncludeProcessor.RelationshipIdsAppend | micronaut-json-api/src/main/java/io/github/baylorpaul/micronautjsonapi/util/JsonApiIncludeProcessor.java:176-198 | the ids of two lists of resources are the ids of each, in order |
| IncludeProcessor.RelationshipIdsSkipNull | micronaut-json-api/src/main/java/io/github/baylorpaul/micronautjsonapi/util/JsonApiIncludeProcessor.java:180-197 | a null element gives no id: the ids of a list with a null element are those of the list without it |
| IncludeProcessor.RelationshipIdsMembers | micronaut-json-api/src/main/java/io/github/baylorpaul/micronautjsonapi/util/JsonApiIncludeProcessor.java:176-198 | an id is found exactly when some resource gives it |
| IncludeProcessor.ChildRunLength | micronaut-json-api/src/main/java/io/github/baylorpaul/micronautjsonapi/util/JsonApiIncludeProcessor.java:139-154 | the run is the longest prefix of the following entries whose paths start with the entry's path and a dot |
| IncludeProcessor.ChildrenOf | micronaut-json-api/src/main/java/io/github/baylorpaul/micronautjsonapi/util/JsonApiIncludeProcessor.java:146-149 | one child per run entry, its path with the parent prefix stripped and the same fetch function |
| IncludeProcessor.EntryOutputFetched | micronaut-json-api/src/main/java/io/github/baylorpaul/micronautjsonapi/util/JsonApiIncludeProcessor.java:157-171 | an entry adds nothing without ids or fetched resources; otherwise the fetched resources, then the walk of its children over them |
| IncludeProcessor.WalkUnfold | micronaut-json-api/src/main/java/io/github/baylorpaul/micronautjsonapi/util/JsonApiIncludeProcessor.java:135-172 | the walk is the first entry's output, then the walk after its child run |
| IncludeProcessor.WalkStep | micronaut-json-api/src/main/java/io/github/baylorpaul/micronautjsonapi/util/JsonApiIncludeProcessor.java:135-172 | one turn of the outer loop keeps the output so far a prefix of the walk |
| IncludeProcessor.CollectChildren | micronaut-json-api/src/main/java/io/github/baylorpaul/micronautjsonapi/util/JsonApiIncludeProcessor.java:137-154 | the do-while collects the child run of the entry, prefix stripped, and stops at the first entry outside it |
| IncludeProcessor.ProcessRelationshipIncludes | micronaut-json-api/src/main/java/io/github/baylorpaul/micronautjsonapi/util/JsonApiIncludeProcessor.java:128-174 | the loop's result is the level-by-level walk |
| IncludeProcessor.SegmentsOfTwo | micronaut-json-api/src/main/java/io/github/baylorpaul/micronautjsonapi/util/JsonApiIncludeProcessor.java:54-58 | two trimmed, comma-free values joined by a comma give exactly those two segments |
| IncludeProcessor.FindTopLevelPath | micronaut-json-api/src/main/java/io/github/baylorpaul/micronautjsonapi/util/JsonApiIncludeProcessor.java:66-76 | a path without a dot is looked up alone: its first supported retriever, or its refusal |
| IncludeProcessor.AncestorsNoDot | micronaut-json-api/src/main/java/io/github/baylorpaul/micronautjsonapi/util/JsonApiIncludeProcessor.java:68-69 | a path without a dot visits only itself |
| IncludeProcessor.AncestorsOfChild | micronaut-json-api/src/main/java/io/github/baylorpaul/micronautjsonapi/util/JsonApiIncludeProcessor.java:68-70 | `parent.child` visits the paths of the parent and then itself |
| IncludeProcessor.UnsupportedFirstSegment | micronaut-json-api/src/main/java/io/github/baylorpaul/micronautjsonapi/util/JsonApiIncludeProcessor.java:72-73 | an unsupported top-level first segment is the first refused segment, refused with its own name |
| IncludeProcessor.SupportedChildPath | micronaut-json-api/src/test/java/io/github/baylorpaul/micronautjsonapi/util/JsonApiIncludeProcessorTest.java:37-50 | a supported `parent.child` with a supported parent activates the parent and then the path, each with its first supported retriever |
| IncludeProcessor.ChildPathPrefixes | micronaut-json-api/src/main/java/io/github/baylorpaul/micronautjsonapi/util/JsonApiIncludeProcessor.java:54-70 | the single segment `parent.child` activates exactly the parent and the path |
| IncludeProcessor.UnsupportedSegmentExample | micronaut-json-api/src/test/java/io/github/baylorpaul/micronautjsonapi/util/JsonApiIncludeProcessorTest.java:22-35 | "blamo,author" is refused on its first segment with the message naming "blamo" |
| IncludeProcessor.WalkNoResources | micronaut-json-api/src/main/java/io/github/baylorpaul/micronautjsonapi/util/JsonApiIncludeProcessor.java:157-162 | without resources no id is found and nothing is included |
| IncludeProcessor.WalkFromFetches | micronaut-json-api/src/main/java/io/github/baylorpaul/micronautjsonapi/util/JsonApiIncludeProcessor.java:159-171 | every included resource was returned by some active entry's fetch, called with a non-empty id list |
| IncludeProcessor.EntryFromFetches | micronaut-json-api/src/main/java/io/github/baylorpaul/micronautjsonapi/util/JsonApiIncludeProcessor.java:159-171 | an entry's output comes from its own fetch or its children's |
| IncludeProcessor.WalkIgnoresEmptyFetch | micronaut-json-api/src/main/java/io/github/baylorpaul/micronautjsonapi/util/JsonApiIncludeProcessor.java:159 | what a fetch returns for an empty id list never matters, since it is never called with one |
| IncludeProcessor.EntryIgnoresEmptyFetch | micronaut-json-api/src/main/java/io/github/baylorpaul/micronautjsonapi/util/JsonApiIncludeProcessor.java:159-171 | the same for one entry and its children |
| IncludeProcessor.ChildrenAgree | micronaut-json-api/src/main/java/io/github/baylorpaul/micronautjsonapi/util/JsonApiIncludeProcessor.java:146-149 | stripping the prefix keeps each child's fetch function |
| IncludeProcessor.ChildRunLengthPaths | micronaut-json-api/src/main/java/io/github/baylorpaul/micronautjsonapi/util/JsonApiIncludeProcessor.java:139-154 | the child run depends on the paths alone |
| IncludeProcessor.ContiguousRunQuirk | micronaut-json-api/src/main/java/io/github/baylorpaul/micronautjsonapi/util/JsonApiIncludeProcessor.java:143-152 | in the sorted list "a", "a-x", "a.x", the entry "a-x" ends the run of "a", so all three are walked at the top level |
| IncludeProcessor.TwoLevelExample | micronaut-json-api/src/test/java/io/github/baylorpaul/micronautjsonapi/util/JsonApiIncludeProcessorTest.java:103-138 | the two-level include "familyGrantingToken.user" includes the token and then the user |
| IncludeProcessor.IncludeProcessorObject.constructor | micronaut-json-api/src/main/java/io/github/baylorpaul/micronautjsonapi/util/JsonApiIncludeProcessor.java:35-37 | the processor keeps the active include list |
| IncludeProcessor.NewIncludeProcessor | micronaut-json-api/src/main/java/io/github/baylorpaul/micronautjsonapi/util/JsonApiIncludeProcessor.java:35-37 | the constructor validates the raw include value: no include gives no list, otherwise the active list or the refusal |
| IncludeProcessor.IncludeProcessorObject.FindIncluded | micronaut-json-api/src/main/java/io/github/baylorpaul/micronautjsonapi/util/JsonApiIncludeProcessor.java:82-88 | null without an include; an empty list for null resources; otherwise the walk over the resources |
| IncludeProcessor.IncludeProcessorObject.AsTopLevelResource | micronaut-json-api/src/main/java/io/github/baylorpaul/micronautjsonapi/util/JsonApiIncludeProcessor.java:109-115 | a new document with the resource as single data, the walk over that one resource as included, and meta, links and errors null |
| IncludeProcessor.IncludeProcessorObject.AsTopLevelArray | micronaut-json-api/src/main/java/io/github/baylorpaul/micronautjsonapi/util/JsonApiIncludeProcessor.java:120-126 | a new document with the array as data, the walk over it as included, and meta, links and errors null |
| IncludeProcessor.IncludeProcessorObject.AsTopLevelEntity | micronaut-json-api/src/main/java/io/github/baylorpaul/micronautjsonapi/util/JsonApiIncludeProcessor.java:93-96 | the entity's resource as single data, the walk over it as included, and meta, links and errors null; fails exactly when the resource fails |
| IncludeProcessor.IncludeProcessorObject.AsTopLevelEntities | micronaut-json-api/src/main/java/io/github/baylorpaul/micronautjsonapi/util/JsonApiIncludeProcessor.java:101-104 | the entities' resources as array data, the walk over them as included, and meta, links and errors null; fails exactly when some resource fails |
| JsonApiUtil.ReadId | micronaut-json-api/src/main/java/io/github/baylorpaul/micronautjsonapi/util/JsonApiUtil.java:66-74 | "data required" exactly when the data is null, otherwise the translated id |
| JsonApiUtil.ParseLongNoThrow | micronaut-json-api/src/main/java/io/github/baylorpaul/micronautjsonapi/util/JsonApiUtil.java:79-85 | a null id or a NumberFormatException gives empty; a parsed id lies in the 64-bit range |
| JsonApiUtil.ParseLongNoThrowRoundTrip | micronaut-json-api/src/main/java/io/github/baylorpaul/micronautjsonapi/util/JsonApiUtil.java:79-85 | the decimal form of a long parses back to it; that of a number outside the range gives empty |
| JsonApiUtil.ReadLongId | micronaut-json-api/src/main/java/io/github/baylorpaul/micronautjsonapi/util/JsonApiUtil.java:54-56 | "data required" exactly when the data is null; otherwise `parseLongNoThrow` of its id |
| JsonApiUtil.ReadLongIdOfLong | micronaut-json-api/src/main/java/io/github/baylorpaul/micronautjsonapi/util/JsonApiUtil.java:54-56 | an id that is the decimal form of a long reads as that long, and a null id reads as empty |
| JsonApiUtil.ReadAndValidateLongId | micronaut-json-api/src/main/java/io/github/baylorpaul/micronautjsonapi/util/JsonApiUtil.java:40-46 | "data required" exactly when the data is null; the expected id exactly when the id parses to it, otherwise empty |
| JsonApiUtil.ValidateLongIdAccepts | micronaut-json-api/src/main/java/io/github/baylorpaul/micronautjsonapi/util/JsonApiUtil.java:40-46 | a resource whose id is the decimal form of the expected id is accepted |
| JsonApiUtil.RelationshipIdMap | micronaut-json-api/src/main/java/io/github/baylorpaul/micronautjsonapi/util/JsonApiUtil.java:164-171 | succeeds exactly when every relationship has data with ids, keyed by the relationship names; a NullPointerException otherwise |
| JsonApiUtil.RelationshipIdMapValues | micronaut-json-api/src/main/java/io/github/baylorpaul/micronautjsonapi/util/JsonApiUtil.java:167-170 | each relationship name maps to the id map of its data |
| JsonApiUtil.RelationshipIdMapErrExtends | micronaut-json-api/src/main/java/io/github/baylorpaul/micronautjsonapi/util/JsonApiUtil.java:164-171 | one failing relationship makes the whole map fail |
| JsonApiUtil.AttributeMap | micronaut-json-api/src/main/java/io/github/baylorpaul/micronautjsonapi/util/JsonApiUtil.java:160 | null attributes give a null map |
| JsonApiUtil.PropertiesOf | micronaut-json-api/src/main/java/io/github/baylorpaul/micronautjsonapi/util/JsonApiUtil.java:160-174 | without relationships the attributes as they are; with them a map holding exactly the attribute and relationship names |
| JsonApiUtil.PropertiesMerge | micronaut-json-api/src/main/java/io/github/baylorpaul/micronautjsonapi/util/JsonApiUtil.java:172-173 | a relationship name maps to its id map even when an attribute has that name; any other attribute keeps its value |
| JsonApiUtil.NullRelationshipDataFails | micronaut-json-api/src/main/java/io/github/baylorpaul/micronautjsonapi/util/JsonApiUtil.java:168-169 | a relationship that is null, or whose data is null, makes reading fail with a NullPointerException |
| JsonApiUtil.ReadProperties | micronaut-json-api/src/main/java/io/github/baylorpaul/micronautjsonapi/util/JsonApiUtil.java:160-174 | the loop over the relationships builds the merged property map |
| JsonApiUtil.ReadNullableValue | micronaut-json-api/src/main/java/io/github/baylorpaul/micronautjsonapi/util/JsonApiUtil.java:240-251 | a null map reads as empty without the mapper; otherwise it succeeds exactly when writing and reading back succeed, with the mapper's value, and is BAD_REQUEST otherwise |
| JsonApiUtil.OrElseThrow | micronaut-json-api/src/main/java/io/github/baylorpaul/micronautjsonapi/util/JsonApiUtil.java:211-212 | a present value is returned, an empty one is "Value cannot be null", an error passes through |
| JsonApiUtil.ReadValue | micronaut-json-api/src/main/java/io/github/baylorpaul/micronautjsonapi/util/JsonApiUtil.java:224-229 | succeeds exactly when the nullable read gives a value, and returns that value; an error of the nullable read passes through; an empty read, and so a null map, is "Value cannot be null" |
| JsonApiUtil.ReadResourceWithoutId | micronaut-json-api/src/main/java/io/github/baylorpaul/micronautjsonapi/util/JsonApiUtil.java:151-177 | a null resource is "data required"; otherwise the nullable read of the merged property map, or its NullPointerException |
| JsonApiUtil.ApplyJsonApiId | micronaut-json-api/src/main/java/io/github/baylorpaul/micronautjsonapi/util/JsonApiUtil.java:194 | the entity gets the resource's id and keeps its type and properties |
| JsonApiUtil.ReadResourceWithId | micronaut-json-api/src/main/java/io/github/baylorpaul/micronautjsonapi/util/JsonApiUtil.java:189-197 | succeeds and gives a value exactly when the read without id does; the value carries the resource's id |
| JsonApiUtil.ReadWithIdKeepsId | micronaut-json-api/src/main/java/io/github/baylorpaul/micronautjsonapi/util/JsonApiUtil.java:189-197 | the id written back by projecting the value read is the resource's id |
| JsonApiUtil.ReadResourceWithIdOrThrow | micronaut-json-api/src/main/java/io/github/baylorpaul/micronautjsonapi/util/JsonApiUtil.java:208-213 | a value exactly when the read with id gives one, and that value, carrying the resource's id; an error passes through; an empty read is "Value cannot be null" |
| JsonApiUtil.ReadDataWithId | micronaut-json-api/src/main/java/io/github/baylorpaul/micronautjsonapi/util/JsonApiUtil.java:97-102 | null data is "data required"; succeeds exactly when the read without id gives a value, and returns it with the data's id applied; an error passes through; an empty read is "Value cannot be null" |
| JsonApiUtil.ReadDataWithoutId | micronaut-json-api/src/main/java/io/github/baylorpaul/micronautjsonapi/util/JsonApiUtil.java:133-139 | null data is "data required"; succeeds exactly when the read gives a value, and returns it; an error passes through; an empty read is "Value cannot be null" |
| Wrappers.MapAllSpec | micronaut-json-api/src/main/java/io/github/baylorpaul/micronautjsonapi/util/JsonApiUtil.java:118-120 | the stream succeeds exactly when every element reads, element for element; otherwise the error of the first failing element |
| JsonApiUtil.ReadDataWithIds | micronaut-json-api/src/main/java/io/github/baylorpaul/micronautjsonapi/util/JsonApiUtil.java:114-121 | a null array is a NullPointerException; one entity per element, in order, each element present and the entity carrying its id; otherwise the first failing element's error |
| JsonApiUtil.NullElementRefused | micronaut-json-api/src/main/java/io/github/baylorpaul/micronautjsonapi/util/JsonApiUtil.java:114-121 | a null element after elements that read well makes the read fail with BAD_REQUEST "data required", as `readResourceWithoutId` throws at lines 154-155 |
| JsonApiService.Service.constructor | micronaut-json-api/src/main/java/io/github/baylorpaul/micronautjsonapi/service/JsonApiService.java:34-35 | the service keeps its injected mapper |
| JsonApiService.Service.ReadNullableValue | micronaut-json-api/src/main/java/io/github/baylorpaul/micronautjsonapi/service/JsonApiService.java:111-120 | the map, even a null one, is written and read back; succeeds exactly when both succeed, with the mapper's value; BAD_REQUEST otherwise; the static reader's answer for a non-null map |
| JsonApiService.Service.ReadValue | micronaut-json-api/src/main/java/io/github/baylorpaul/micronautjsonapi/service/JsonApiService.java:106-109 | succeeds exactly when the nullable read gives a value, and returns that value; an error passes through; an empty read is "Value cannot be null" |
| JsonApiService.Service.ReadResourceWithoutId | micronaut-json-api/src/main/java/io/github/baylorpaul/micronautjsonapi/service/JsonApiService.java:61-87 | a null resource is "data required"; otherwise the nullable read of the merged property map |
| JsonApiService.Service.ReadResourceWithId | micronaut-json-api/src/main/java/io/github/baylorpaul/micronautjsonapi/service/JsonApiService.java:89-97 | as without the id, the value carrying the resource's id |
| JsonApiService.Service.ReadResourceWithIdOrThrow | micronaut-json-api/src/main/java/io/github/baylorpaul/micronautjsonapi/service/JsonApiService.java:99-104 | a value exactly when the read with id gives one, and that value, carrying the resource's id; an error passes through; an empty read is "Value cannot be null" |
| JsonApiService.Service.ReadDataWithId | micronaut-json-api/src/main/java/io/github/baylorpaul/micronautjsonapi/service/JsonApiService.java:37-42 | null data is "data required"; succeeds exactly when the read without id gives a value, and returns it with the data's id applied; an error passes through; an empty read is "Value cannot be null" |
| JsonApiService.Service.ReadDataWithoutId | micronaut-json-api/src/main/java/io/github/baylorpaul/micronautjsonapi/service/JsonApiService.java:53-59 | null data is "data required"; succeeds exactly when the read gives a value, and returns it; an error passes through; an empty read is "Value cannot be null" |
| JsonApiService.Service.ReadDataWithIds | micronaut-json-api/src/main/java/io/github/baylorpaul/micronautjsonapi/service/JsonApiService.java:44-51 | a null array is a NullPointerException; one entity per element, in order, each element present and the entity carrying its id; otherwise the first failing element's error |
| JsonApiService.ServiceAgreesWithUtil | micronaut-json-api/src/main/java/io/github/baylorpaul/micronautjsonapi/service/JsonApiService.java:61-120 | when the mapper writes null as null, every reader of the service answers as the static reader of the same name |
| JsonApiService.ReadAllSame | micronaut-json-api/src/main/java/io/github/baylorpaul/micronautjsonapi/service/JsonApiService.java:48-50 | two element readers that agree on every resource read every array alike |
| JsonApiService.ServiceRefusesNullWhenMapperCannotWriteIt | micronaut-json-api/src/main/java/io/github/baylorpaul/micronautjsonapi/service/JsonApiService.java:111-120 | a mapper that cannot write null makes the service refuse a resource without attributes or relationships, which the static reader reads as empty |

## Left out

- The JSON mapper's text encoding is not modelled. Writing a map and reading text as a class are function parameters, so the model says nothing about the JSON text itself.
- Bean introspection (`BeanWrapper`, annotations, `bp.getType()`) is not modelled. An entity is given as its type, id and list of property descriptors.
- `toJsonApiId`, `applyJsonApiId` and the entity classes behind them are not part of this model. An entity's JSON:API id is a plain field.
- A fetch function returns resources. The `toResource` call on each fetched entity is folded into the fetch. A fetch that throws, and a fetched null (a NullPointerException at line 161 of JsonApiIncludeProcessor.java), are not modelled.
- The `instanceof JsonApiResource` test of `findRelationshipIds` always holds, because every caller passes resources.
- A null element of a resource list, and a null value in a relationships map, are modelled as `None`. `findRelationshipIds` skips both, `readDataWithIds` refuses a null element with BAD_REQUEST "data required", and the relationship id map fails on a null value with a NullPointerException. The lists the model builds itself (`included`, the resources of entities, the decoder's arrays) never hold a null.
- JavaStrings.LexLess: compares strings by Unicode code point, where `String.compareTo` compares UTF-16 code units. Two paths that differ first at a character above U+FFFF and one in U+E000..U+FFFF may sort the other way round.
- Model.ResourceObject.PutAllAttributes: stores a new map, where `putAllAttributes` keeps the caller's map object itself when the current attributes are null or empty. Later changes the caller makes to that map are not seen by the model.
- JavaLong.ParseLong: accepts the ASCII digits only, while `Long.valueOf` also accepts other Unicode decimal digits.
- SerdeUtil.ClassName: names every number `java.lang.Number`, where the decoder would give the boxed class (`Integer`, `Long`, `Double`, …).
- The `links` of a resource are always null. The resource builder does not set them, and decoding them into a resource is the mapper's work.
- The iteration order of a Java `HashMap` is not modelled. The property map handed to the mapper is a Dafny `map`, and `validateIncludes` sorts its `HashMap` values.
- The include processor's "author.address" test is stated as the general lemma `IncludeProcessor.SupportedChildPath`, not evaluated on its concrete strings.
- The include processor's tests with three or more segments (lines 52-101 of JsonApiIncludeProcessorTest.java) are covered by the general lemmas on `ValidateIncludes`, not evaluated one by one.
- JsonApiErrorResponseProcessor, JsonApiTopLevelResource's own builder, JsonApiSlice, JsonApiPage, JsonApiError and JsonApiLinkObject's fields are not part of this model. They hold no logic beyond what the builders above store.
- Logging, Micronaut dependency injection and the `Decoder`/`Encoder` plumbing of the two deserializers and the link string serializer are not modelled. The decoder's arbitrary token is the `Json` datatype.
