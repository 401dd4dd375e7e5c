/**
 * Turning application entities into JSON:API resources (JsonApiResourceable and JsonApiArrayable):
 * the partition of bean properties into attributes and relationships, the projection to type and id,
 * and the JsonApiArray constructor over entities.
 */
module Identifiable {
  import opened Wrappers
  import opened OrderedMaps
  import opened Documents
  import opened Model

  /** A property becomes an attribute when it is neither the id, nor a relation, nor ignored. */
  predicate IsAttribute(p: Property)
  {
    !p.isId && !p.isRelation && !p.ignore
  }

  /** A property becomes a relationship when it is a relation that is neither the id nor ignored. */
  predicate IsRelationship(p: Property)
  {
    !p.isId && p.isRelation && !p.ignore
  }

  /** No two properties share a name: true of the bean properties of a Java class. */
  ghost predicate DistinctNames(ps: seq<Property>)
  {
    forall i, j :: 0 <= i < j < |ps| ==> ps[i].name != ps[j].name
  }

  /**
   * The map a `getBeanProperties().forEach` loop builds: each property that `select` accepts is put under
   * its name, in property order.
   */
  function Collect<V>(ps: seq<Property>, select: Property -> Option<V>): OMap<V>
  {
    if ps == [] then []
    else
      var last := ps[|ps| - 1];
      var m := Collect(ps[..|ps| - 1], select);
      match select(last)
      case Some(v) => Put(m, last.name, v)
      case None => m
  }

  /** One more property: the loop's map after property `i`. */
  lemma CollectStep<V>(ps: seq<Property>, select: Property -> Option<V>, i: nat)
    requires i < |ps|
    ensures Collect(ps[..i + 1], select) ==
      match select(ps[i])
      case Some(v) => Put(Collect(ps[..i], select), ps[i].name, v)
      case None => Collect(ps[..i], select)
  {
    assert ps[..i + 1][..i] == ps[..i];
  }

  /** The accepted properties as entries, in property order. */
  function Selected<V>(ps: seq<Property>, select: Property -> Option<V>): OMap<V>
  {
    if ps == [] then []
    else
      var last := ps[|ps| - 1];
      var rest := Selected(ps[..|ps| - 1], select);
      match select(last)
      case Some(v) => rest + [(last.name, v)]
      case None => rest
  }

  /** Every entry of `Selected` comes from an accepted property of that name. */
  lemma {:induction false} SelectedKeys<V>(ps: seq<Property>, select: Property -> Option<V>, k: string)
    ensures k in Keys(Selected(ps, select)) ==> exists i :: 0 <= i < |ps| && ps[i].name == k && select(ps[i]).Some?
  {
    if ps != [] {
      var init := ps[..|ps| - 1];
      SelectedKeys(init, select, k);
      assert forall i :: 0 <= i < |init| ==> init[i] == ps[i];
      match select(ps[|ps| - 1])
      case Some(v) => KeysAppend(Selected(init, select), [(ps[|ps| - 1].name, v)]);
      case None =>
    }
  }

  /**
   * With distinct property names, the loop's map is exactly the accepted properties with their values,
   * in property order.
   */
  lemma {:induction false} CollectInPropertyOrder<V>(ps: seq<Property>, select: Property -> Option<V>)
    requires DistinctNames(ps)
    ensures Collect(ps, select) == Selected(ps, select)
  {
    if ps != [] {
      var init, last := ps[..|ps| - 1], ps[|ps| - 1];
      assert DistinctNames(init);
      CollectInPropertyOrder(init, select);
      if select(last).Some? {
        assert last.name !in Keys(Selected(init, select)) by {
          SelectedKeys(init, select, last.name);
          forall i | 0 <= i < |init| ensures init[i].name != last.name {
            assert init[i] == ps[i];
          }
        }
        PutAbsent(Selected(init, select), last.name, select(last).value);
      }
    }
  }

  /** The loop's map never repeats a key. */
  lemma {:induction false} CollectDistinct<V>(ps: seq<Property>, select: Property -> Option<V>)
    ensures DistinctKeys(Collect(ps, select))
  {
    if ps != [] {
      var last := ps[|ps| - 1];
      CollectDistinct(ps[..|ps| - 1], select);
      if select(last).Some? {
        PutDistinct(Collect(ps[..|ps| - 1], select), last.name, select(last).value);
      }
    }
  }

  /** `toJsonApiAttributes` keeps a property, with its value, iff it is neither id, nor relation, nor ignored. */
  function AttributeOf(p: Property): (r: Option<Value>)
    ensures r.Some? <==> !p.isId && !p.isRelation && !p.ignore
    ensures r.Some? ==> r.value == AttributeValue(p.value)
  {
    if IsAttribute(p) then Some(AttributeValue(p.value)) else None
  }

  /** The attribute map built by `toJsonApiAttributes`. */
  function AttributesOf(ps: seq<Property>): OMap<Value>
  {
    Collect(ps, AttributeOf)
  }

  /** `toJsonApiAttributes`: walks the properties and puts every attribute into a new LinkedHashMap. */
  method ToJsonApiAttributes(e: Entity) returns (attrs: OMap<Value>)
    ensures attrs == AttributesOf(e.props)
  {
    attrs := [];
    for i := 0 to |e.props|
      invariant attrs == AttributesOf(e.props[..i])
    {
      var bp := e.props[i];
      CollectStep(e.props, AttributeOf, i);
      if IsAttribute(bp) {
        attrs := Put(attrs, bp.name, AttributeValue(bp.value));
      }
    }
    assert e.props[..|e.props|] == e.props;
  }

  /**
   * The elements `mapToJsonApiArrayable` keeps from a collection: nulls and entities, in order;
   * any other element is dropped.
   */
  function KeepResourceables(xs: seq<Element>): seq<Option<Entity>>
  {
    if xs == [] then []
    else
      var init := KeepResourceables(xs[..|xs| - 1]);
      var kept := Kept(xs[|xs| - 1]);
      if kept.Some? then init + [kept.value] else init
  }

  /** Whether an element survives `mapToJsonApiArrayable` (a null or an entity does), and as what. */
  function Kept(x: Element): Option<Option<Entity>>
  {
    match x
    case NullItem => Some(None)
    case EntityItem(e) => Some(Some(e))
    case OtherItem(_) => None
  }

  /**
   * Nothing but nulls and entities is kept, every null and entity is kept, and a collection holding only
   * nulls and entities is kept whole, element for element.
   */
  lemma {:induction false} KeepResourceablesSpec(xs: seq<Element>)
    ensures forall i :: 0 <= i < |xs| && Kept(xs[i]).Some? ==> Kept(xs[i]).value in KeepResourceables(xs)
    ensures forall o :: o in KeepResourceables(xs) ==> exists i :: 0 <= i < |xs| && Kept(xs[i]) == Some(o)
    ensures (forall i :: 0 <= i < |xs| ==> !xs[i].OtherItem?) ==>
      |KeepResourceables(xs)| == |xs| && forall i :: 0 <= i < |xs| ==> Some(KeepResourceables(xs)[i]) == Kept(xs[i])
  {
    KeptAreKept(xs);
    KeptComeFromElements(xs);
    KeptWhole(xs);
  }

  lemma {:induction false} KeptAreKept(xs: seq<Element>)
    ensures forall i :: 0 <= i < |xs| && Kept(xs[i]).Some? ==> Kept(xs[i]).value in KeepResourceables(xs)
  {
    if xs != [] {
      var init := xs[..|xs| - 1];
      KeptAreKept(init);
      forall i | 0 <= i < |init| ensures xs[i] == init[i] {
      }
    }
  }

  lemma {:induction false} KeptComeFromElements(xs: seq<Element>)
    ensures forall o :: o in KeepResourceables(xs) ==> exists i :: 0 <= i < |xs| && Kept(xs[i]) == Some(o)
  {
    if xs != [] {
      var init := xs[..|xs| - 1];
      KeptComeFromElements(init);
      forall o | o in KeepResourceables(xs) ensures exists i :: 0 <= i < |xs| && Kept(xs[i]) == Some(o) {
        if o in KeepResourceables(init) {
          var i :| 0 <= i < |init| && Kept(init[i]) == Some(o);
          assert xs[i] == init[i];
        } else {
          assert Kept(xs[|xs| - 1]) == Some(o);
        }
      }
    }
  }

  lemma {:induction false} KeptWhole(xs: seq<Element>)
    ensures (forall i :: 0 <= i < |xs| ==> !xs[i].OtherItem?) ==>
      |KeepResourceables(xs)| == |xs| && forall i :: 0 <= i < |xs| ==> Some(KeepResourceables(xs)[i]) == Kept(xs[i])
  {
    if xs != [] && forall i :: 0 <= i < |xs| ==> !xs[i].OtherItem? {
      var init := xs[..|xs| - 1];
      assert forall i :: 0 <= i < |init| ==> init[i] == xs[i];
      KeptWhole(init);
    }
  }

  /**
   * Keeping distributes over concatenation: the kept elements of a collection are those of its first part
   * followed by those of the rest, so relative order and repeats survive whatever is dropped.
   */
  lemma {:induction false} KeepAppend(xs: seq<Element>, ys: seq<Element>)
    ensures KeepResourceables(xs + ys) == KeepResourceables(xs) + KeepResourceables(ys)
    decreases |ys|
  {
    if ys == [] {
      assert xs + ys == xs;
    } else {
      var init := ys[..|ys| - 1];
      assert (xs + ys)[..|xs + ys| - 1] == xs + init;
      assert (xs + ys)[|xs + ys| - 1] == ys[|ys| - 1];
      KeepAppend(xs, init);
    }
  }

  /** `mapToJsonApiArrayable`: a null collection gives null, otherwise an arrayable of the kept elements. */
  function ArrayableOf(c: Option<seq<Element>>): (r: Option<DataTypeable>)
    ensures c.None? <==> r.None?
    ensures r.Some? ==> r.value.ArrayableRef?
  {
    match c
    case None => None
    case Some(xs) => Some(ArrayableRef(KeepResourceables(xs)))
  }

  /** `mapToJsonApiArrayable`, element by element into a new list. */
  method MapToJsonApiArrayable(c: Option<seq<Element>>) returns (r: Option<DataTypeable>)
    ensures r == ArrayableOf(c)
  {
    r := None;
    if c.Some? {
      var xs := c.value;
      var list: seq<Option<Entity>> := [];
      for i := 0 to |xs|
        invariant list == KeepResourceables(xs[..i])
      {
        assert xs[..i + 1][..i] == xs[..i];
        match xs[i]
        case NullItem => list := list + [None];
        case EntityItem(e) => list := list + [Some(e)];
        case OtherItem(_) =>
      }
      assert xs[..|xs|] == xs;
      r := Some(ArrayableRef(CopyOrEmpty(Some(list))));
    }
  }

  /**
   * What `toRelationships` puts for a property: only relations that are neither id nor ignored; an
   * entity-typed value as it is, a collection-typed value as an arrayable, and a relation of any other
   * type is dropped.
   */
  function RelationshipOf(p: Property): (r: Option<Option<DataTypeable>>)
    ensures r.Some? <==> !p.isId && p.isRelation && !p.ignore && !p.value.Plain?
    ensures r.Some? && p.value.TypeableProp? ==> r.value == p.value.t
    ensures r.Some? && p.value.CollectionProp? ==> r.value == ArrayableOf(p.value.c)
  {
    if !IsRelationship(p) then None
    else
      match p.value
      case TypeableProp(t) => Some(t)
      case CollectionProp(c) => Some(ArrayableOf(c))
      case Plain(_) => None
  }

  /** The relationship map built by `toRelationships`. */
  function RelationshipsOf(ps: seq<Property>): OMap<Option<DataTypeable>>
  {
    Collect(ps, RelationshipOf)
  }

  /** `toRelationships`: walks the properties and puts every relationship into a new LinkedHashMap. */
  method ToRelationships(e: Entity) returns (rels: OMap<Option<DataTypeable>>)
    ensures rels == RelationshipsOf(e.props)
  {
    rels := [];
    for i := 0 to |e.props|
      invariant rels == RelationshipsOf(e.props[..i])
    {
      var bp := e.props[i];
      CollectStep(e.props, RelationshipOf, i);
      if IsRelationship(bp) {
        match bp.value
        case TypeableProp(t) =>
          rels := Put(rels, bp.name, t);
        case CollectionProp(c) =>
          var arrayable := MapToJsonApiArrayable(c);
          rels := Put(rels, bp.name, arrayable);
        case Plain(_) =>
      }
    }
    assert e.props[..|e.props|] == e.props;
  }

  /** `JsonApiResourceable.toResourceIdOrIds`: the entity's type and id only, with no attributes or relationships. */
  function IdOnly(e: Entity): (r: Resource)
    ensures r.rtype == e.rtype && r.id == e.jsonApiId
    ensures r.attributes.None? && r.relationships.None? && r.links.None?
  {
    Resource(e.rtype, e.jsonApiId, None, None, None)
  }

  /**
   * `JsonApiArrayable.toResourceIdOrIds`: one type-and-id resource per entity, in order; a null element
   * fails when its method is called.
   */
  function ArrayableIdOnly(items: seq<Option<Entity>>): (r: Result<seq<Resource>>)
    ensures r.Err? <==> None in items
    ensures r.Err? ==> r.error == NullPointer
    ensures r.Ok? ==> |r.value| == |items| && forall i :: 0 <= i < |items| ==> r.value[i] == IdOnly(items[i].value)
  {
    if items == [] then Ok([])
    else if items[0].None? then Err(NullPointer)
    else
      var rest :- ArrayableIdOnly(items[1..]);
      assert items == [items[0]] + items[1..];
      Ok([IdOnly(items[0].value)] + rest)
  }

  /** `toJsonApiObject`: a relationship object without meta or links whose data is the type-and-id projection. */
  function ToJsonApiObject(t: Option<DataTypeable>): (r: Result<RelationshipObject>)
    ensures r.Ok? ==> r.value.meta.None? && r.value.links.None?
    ensures r.Ok? ==> (r.value.data.None? <==> t.None?)
    ensures t.Some? && t.value.EntityRef? ==> r == Ok(RelationshipObject(None, None, Some(Single(IdOnly(t.value.entity)))))
    ensures t.Some? && t.value.ArrayableRef? ==> (r.Err? <==> None in t.value.items)
    ensures t.Some? && t.value.ArrayableRef? && r.Ok? ==>
      r.value.data.value.Array? && |r.value.data.value.resources| == |t.value.items| &&
      forall i :: 0 <= i < |t.value.items| ==> r.value.data.value.resources[i] == Some(IdOnly(t.value.items[i].value))
  {
    match t
    case None => Ok(RelationshipObject(None, None, None))
    case Some(EntityRef(e)) => Ok(RelationshipObject(None, None, Some(Single(IdOnly(e)))))
    case Some(ArrayableRef(items)) =>
      var rs :- ArrayableIdOnly(items);
      Ok(RelationshipObject(None, None, Some(Array(AsArray(rs)))))
  }

  /** The relationship objects `toJsonApiRelationships` builds, entry by entry. */
  function RelationshipObjectsOf(rels: OMap<Option<DataTypeable>>): Result<OMap<Option<RelationshipObject>>>
  {
    if rels == [] then Ok([])
    else
      var init :- RelationshipObjectsOf(rels[..|rels| - 1]);
      var last := rels[|rels| - 1];
      var obj :- ToJsonApiObject(last.1);
      Ok(Put(init, last.0, Some(obj)))
  }

  /** Building the relationship objects fails exactly when one entry fails. */
  lemma {:induction false} RelationshipObjectsErr(rels: OMap<Option<DataTypeable>>)
    ensures RelationshipObjectsOf(rels).Err? <==> exists i :: 0 <= i < |rels| && ToJsonApiObject(rels[i].1).Err?
  {
    if rels != [] {
      var init, last := rels[..|rels| - 1], rels[|rels| - 1];
      RelationshipObjectsErr(init);
      RelationshipObjectsErrStep(rels);
      if RelationshipObjectsOf(init).Err? {
        var i :| 0 <= i < |init| && ToJsonApiObject(init[i].1).Err?;
        assert rels[i] == init[i];
      } else if ToJsonApiObject(last.1).Err? {
        assert rels[|rels| - 1] == last;
      } else {
        AllObjectsOk(rels, init);
      }
    }
  }

  /** When every entry before the last and the last one build, every entry builds. */
  lemma AllObjectsOk(rels: OMap<Option<DataTypeable>>, init: OMap<Option<DataTypeable>>)
    requires rels != [] && init == rels[..|rels| - 1] && ToJsonApiObject(rels[|rels| - 1].1).Ok?
    requires forall i :: 0 <= i < |init| ==> ToJsonApiObject(init[i].1).Ok?
    ensures forall i :: 0 <= i < |rels| ==> ToJsonApiObject(rels[i].1).Ok?
  {
    forall i | 0 <= i < |init| ensures ToJsonApiObject(rels[i].1).Ok? {
      assert init[i] == rels[i];
    }
  }

  /** The last entry fails the build when nothing before it did. */
  lemma RelationshipObjectsErrStep(rels: OMap<Option<DataTypeable>>)
    requires rels != []
    ensures RelationshipObjectsOf(rels).Err? <==>
      RelationshipObjectsOf(rels[..|rels| - 1]).Err? || ToJsonApiObject(rels[|rels| - 1].1).Err?
  {
  }

  /**
   * Over a map without repeated keys, the relationship objects come in the same order under the same keys,
   * entry i being the relationship object of entry i.
   */
  lemma {:induction false} RelationshipObjectsInOrder(rels: OMap<Option<DataTypeable>>)
    requires DistinctKeys(rels)
    ensures RelationshipObjectsOf(rels).Ok? ==> |RelationshipObjectsOf(rels).value| == |rels|
    ensures RelationshipObjectsOf(rels).Ok? ==> forall i :: 0 <= i < |rels| ==>
      ToJsonApiObject(rels[i].1).Ok? && RelationshipObjectsOf(rels).value[i] == (rels[i].0, Some(ToJsonApiObject(rels[i].1).value))
  {
    if rels != [] {
      var init, last := rels[..|rels| - 1], rels[|rels| - 1];
      DistinctKeysInit(rels);
      RelationshipObjectsInOrder(init);
      LastKeyIsNew(rels);
      var prev := RelationshipObjectsOf(init);
      var obj := ToJsonApiObject(last.1);
      if prev.Ok? && obj.Ok? {
        assert RelationshipObjectsOf(rels) == Ok(Put(prev.value, last.0, Some(obj.value)));
        InOrderStep(rels, init, prev.value, obj.value);
      }
    }
  }

  /** Appending the last entry's object to the in-order objects of the others keeps them in order. */
  lemma InOrderStep(rels: OMap<Option<DataTypeable>>, init: OMap<Option<DataTypeable>>, objs: OMap<Option<RelationshipObject>>,
                    obj: RelationshipObject)
    requires rels != [] && init == rels[..|rels| - 1] && rels[|rels| - 1].0 !in Keys(init)
    requires ToJsonApiObject(rels[|rels| - 1].1) == Ok(obj)
    requires |objs| == |init| && forall i :: 0 <= i < |init| ==>
      ToJsonApiObject(init[i].1).Ok? && objs[i] == (init[i].0, Some(ToJsonApiObject(init[i].1).value))
    ensures var r := Put(objs, rels[|rels| - 1].0, Some(obj));
      |r| == |rels| && forall i :: 0 <= i < |rels| ==>
        ToJsonApiObject(rels[i].1).Ok? && r[i] == (rels[i].0, Some(ToJsonApiObject(rels[i].1).value))
  {
    var key := rels[|rels| - 1].0;
    assert Keys(objs) == Keys(init);
    PutAbsent(objs, key, Some(obj));
    var r := objs + [(key, Some(obj))];
    forall i | 0 <= i < |rels|
      ensures ToJsonApiObject(rels[i].1).Ok? && r[i] == (rels[i].0, Some(ToJsonApiObject(rels[i].1).value))
    {
      if i < |init| {
        assert rels[i] == init[i] && r[i] == objs[i];
      }
    }
  }

  /** `toJsonApiRelationships`: every relationship entry, in order, as a relationship object. */
  method ToJsonApiRelationships(e: Entity) returns (r: Result<OMap<Option<RelationshipObject>>>)
    ensures r == RelationshipObjectsOf(RelationshipsOf(e.props))
  {
    var relationships := ToRelationships(e);
    var result: OMap<Option<RelationshipObject>> := [];
    for i := 0 to |relationships|
      invariant RelationshipObjectsOf(relationships[..i]) == Ok(result)
    {
      var entry := relationships[i];
      var obj := ToJsonApiObject(entry.1);
      if obj.Err? {
        FailsAt(relationships, i, result);
        return Err(obj.error);
      }
      ObjectsSnoc(relationships, i, result, obj.value);
      result := Put(result, entry.0, Some(obj.value));
    }
    assert relationships[..|relationships|] == relationships;
    r := Ok(result);
  }

  /** One more entry that builds puts its object after the objects built so far. */
  lemma ObjectsSnoc(rels: OMap<Option<DataTypeable>>, i: nat, prefix: OMap<Option<RelationshipObject>>, obj: RelationshipObject)
    requires i < |rels| && RelationshipObjectsOf(rels[..i]) == Ok(prefix) && ToJsonApiObject(rels[i].1) == Ok(obj)
    ensures RelationshipObjectsOf(rels[..i + 1]) == Ok(Put(prefix, rels[i].0, Some(obj)))
  {
    var upTo := rels[..i + 1];
    assert |upTo| == i + 1 && upTo[..|upTo| - 1] == rels[..i] && upTo[|upTo| - 1] == rels[i];
  }

  /** An entry that fails after a prefix that builds makes the whole map fail with its error. */
  lemma FailsAt(rels: OMap<Option<DataTypeable>>, i: nat, prefix: OMap<Option<RelationshipObject>>)
    requires i < |rels| && RelationshipObjectsOf(rels[..i]) == Ok(prefix) && ToJsonApiObject(rels[i].1).Err?
    ensures RelationshipObjectsOf(rels) == Err(ToJsonApiObject(rels[i].1).error)
  {
    var upTo := rels[..i + 1];
    assert |upTo| == i + 1 && upTo[..|upTo| - 1] == rels[..i] && upTo[|upTo| - 1] == rels[i];
    assert RelationshipObjectsOf(upTo) == Err(ToJsonApiObject(rels[i].1).error);
    RelationshipObjectsErrExtends(rels, i + 1);
  }

  /** Once a prefix of the entries fails, the whole map fails with the same error. */
  lemma {:induction false} RelationshipObjectsErrExtends(rels: OMap<Option<DataTypeable>>, n: nat)
    requires n <= |rels| && RelationshipObjectsOf(rels[..n]).Err?
    ensures RelationshipObjectsOf(rels) == RelationshipObjectsOf(rels[..n])
    decreases |rels| - n
  {
    if n < |rels| {
      assert rels[..n + 1][..n] == rels[..n];
      RelationshipObjectsErrExtends(rels, n + 1);
    } else {
      assert rels[..n] == rels;
    }
  }

  /** The resource `toResource` builds: type, id, attributes and relationship objects; no links. */
  function ResourceOf(e: Entity): Result<Resource>
  {
    var rels :- RelationshipObjectsOf(RelationshipsOf(e.props));
    Ok(Resource(e.rtype, e.jsonApiId, Some(AttributesOf(e.props)), Some(rels), None))
  }

  /**
   * `toResource` keeps the type and the id, carries the attribute partition, and has one relationship
   * object per relationship property, keyed alike; it fails only when an arrayable relationship holds a null.
   */
  lemma ResourceOfSpec(e: Entity)
    ensures ResourceOf(e).Err? <==>
      exists i :: 0 <= i < |RelationshipsOf(e.props)| && ToJsonApiObject(RelationshipsOf(e.props)[i].1).Err?
    ensures ResourceOf(e).Ok? ==> ResourceOf(e).value.rtype == e.rtype && ResourceOf(e).value.id == e.jsonApiId
    ensures ResourceOf(e).Ok? ==> ResourceOf(e).value.attributes == Some(AttributesOf(e.props))
    ensures ResourceOf(e).Ok? ==> Keys(ResourceOf(e).value.relationships.value) == Keys(RelationshipsOf(e.props))
    ensures ResourceOf(e).Ok? ==> var rels := RelationshipsOf(e.props);
      |ResourceOf(e).value.relationships.value| == |rels| &&
      forall i :: 0 <= i < |rels| ==> (ToJsonApiObject(rels[i].1).Ok? &&
        ResourceOf(e).value.relationships.value[i] == (rels[i].0, Some(ToJsonApiObject(rels[i].1).value)))
  {
    CollectDistinct(e.props, RelationshipOf);
    RelationshipObjectsErr(RelationshipsOf(e.props));
    RelationshipObjectsInOrder(RelationshipsOf(e.props));
  }

  /** `toResource`, calling the attribute and relationship builders. */
  method ToResource(e: Entity) returns (r: Result<Resource>)
    ensures r == ResourceOf(e)
  {
    var attributes := ToJsonApiAttributes(e);
    var relationships := ToJsonApiRelationships(e);
    if relationships.Err? {
      return Err(relationships.error);
    }
    r := Ok(Resource(e.rtype, e.jsonApiId, Some(attributes), Some(relationships.value), None));
  }

  /** `toTopLevelResource`: a new document whose data is the resource and whose other members are null. */
  method ToTopLevelResource(e: Entity) returns (r: Result<TopLevelDocument>)
    ensures r.Err? <==> ResourceOf(e).Err?
    ensures r.Ok? ==> fresh(r.value) && r.value.data == Some(Single(ResourceOf(e).value))
    ensures r.Ok? ==> r.value.meta.None? && r.value.links.None? && r.value.errors.None? && r.value.included.None?
  {
    var res := ToResource(e);
    if res.Err? {
      return Err(res.error);
    }
    var doc := new TopLevelDocument(None, Some(Single(res.value)), None, None);
    r := Ok(doc);
  }

  /** `JsonApiResourceable::toResource` applied to a list element: a null element throws. */
  function ElementResourceOf(e: Option<Entity>): Result<Resource>
  {
    if e.None? then Err(NullPointer) else ResourceOf(e.value)
  }

  /** The resources of an entity list, in order, or the first failure. */
  function ResourcesOf(es: seq<Option<Entity>>): Result<seq<Resource>>
  {
    MapAll(ElementResourceOf, es)
  }

  /**
   * Element i of the resources is the resource of entity i; the list fails exactly when some element is null
   * or its entity fails, and the first such element gives the error.
   */
  lemma ResourcesOfSpec(es: seq<Option<Entity>>)
    ensures ResourcesOf(es).Ok? ==> |ResourcesOf(es).value| == |es|
    ensures ResourcesOf(es).Ok? ==> forall i :: 0 <= i < |es| ==>
      es[i].Some? && ResourceOf(es[i].value) == Ok(ResourcesOf(es).value[i])
    ensures ResourcesOf(es).Err? <==> exists i :: 0 <= i < |es| && (es[i].None? || ResourceOf(es[i].value).Err?)
    ensures ResourcesOf(es).Err? ==> exists i :: (0 <= i < |es| && FirstFailure(ElementResourceOf, es, i) &&
      ResourcesOf(es).error == (if es[i].None? then NullPointer else ResourceOf(es[i].value).error))
  {
    MapAllSpec(ElementResourceOf, es);
    if ResourcesOf(es).Err? {
      var i :| FirstFailure(ElementResourceOf, es, i) && ResourcesOf(es).error == ElementResourceOf(es[i]).error;
    }
  }

  /**
   * The JsonApiArray constructor over entities: a null collection gives an empty array, otherwise
   * element i is the resource of entity i; a null entity throws when `toResource` is called on it.
   */
  method ArrayOfEntities(list: Option<seq<Option<Entity>>>) returns (r: Result<seq<Resource>>)
    ensures list.None? ==> r == Ok([])
    ensures list.Some? ==> r == ResourcesOf(list.value)
  {
    var arr: seq<Resource> := [];
    if list.Some? {
      var es := list.value;
      for i := 0 to |es|
        invariant ResourcesOf(es[..i]) == Ok(arr)
      {
        if es[i].None? {
          MapAllFailsAt(ElementResourceOf, es, i, arr);
          return Err(NullPointer);
        }
        var res := ToResource(es[i].value);
        if res.Err? {
          MapAllFailsAt(ElementResourceOf, es, i, arr);
          return Err(res.error);
        }
        MapAllSnoc(ElementResourceOf, es, i, arr, res.value);
        arr := arr + [res.value];
      }
      assert es[..|es|] == es;
    }
    r := Ok(arr);
  }
}
