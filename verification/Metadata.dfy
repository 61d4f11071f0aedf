/** The `$metadata` index of `metadata.py`, from the element tree of the document. */
module Metadata {
  import opened Wrappers
  import opened Text
  import opened Ordering

  datatype Element = Element(tag: string, attributes: map<string, string>, children: seq<Element>)

  datatype Description = Description(entitySet: string, entityType: string, properties: seq<string>)

  /** `tag.rsplit("}", 1)[-1]` */
  function LocalName(tag: string): string {
    if '}' !in tag then tag else LocalName(tag[1..])
  }

  /** `root.iter()`: the element and its descendants in document order. */
  function Iter(e: Element): seq<Element>
    decreases e, 0
  {
    [e] + IterAll(e.children)
  }

  function IterAll(es: seq<Element>): seq<Element>
    decreases es, 1
  {
    if es == [] then [] else Iter(es[0]) + IterAll(es[1..])
  }

  function Attribute(e: Element, name: string): Option<string> {
    if name in e.attributes then Some(e.attributes[name]) else None
  }

  function AttributeOr(e: Element, name: string, otherwise: string): string {
    if name in e.attributes then e.attributes[name] else otherwise
  }

  // Entity types, in the order in which the document defines them.

  datatype TypeDefinition = TypeDefinition(name: string, properties: seq<string>)

  function Properties(items: seq<Element>): seq<string> {
    if items == [] then []
    else
      var earlier := Properties(items[..|items| - 1]);
      var item := items[|items| - 1];
      if LocalName(item.tag) == "Property" && "Name" in item.attributes then earlier + [item.attributes["Name"]]
      else earlier
  }

  function TypesIn(namespace: string, children: seq<Element>): seq<TypeDefinition> {
    if children == [] then []
    else
      var earlier := TypesIn(namespace, children[..|children| - 1]);
      var child := children[|children| - 1];
      if LocalName(child.tag) != "EntityType" then earlier
      else
        earlier + [TypeDefinition(namespace + "." + AttributeOr(child, "Name", ""), Properties(child.children))]
  }

  function Definitions(elements: seq<Element>): seq<TypeDefinition> {
    if elements == [] then []
    else
      var earlier := Definitions(elements[..|elements| - 1]);
      var e := elements[|elements| - 1];
      if LocalName(e.tag) != "Schema" then earlier
      else earlier + TypesIn(AttributeOr(e, "Namespace", ""), e.children)
  }

  /** The properties of the last definition under a qualified name, or none. */
  function LastProperties(types: seq<TypeDefinition>, name: string): seq<string> {
    if types == [] then []
    else if types[|types| - 1].name == name then types[|types| - 1].properties
    else LastProperties(types[..|types| - 1], name)
  }

  // Entity sets, in document order, joined with their types.

  predicate IsEntitySet(e: Element) {
    && LocalName(e.tag) == "EntitySet"
    && AttributeOr(e, "Name", "") != "" && AttributeOr(e, "EntityType", "") != ""
  }

  function Joined(elements: seq<Element>, types: seq<TypeDefinition>): seq<Description> {
    if elements == [] then []
    else
      var earlier := Joined(elements[..|elements| - 1], types);
      var e := elements[|elements| - 1];
      if !IsEntitySet(e) then earlier
      else
        var typeName := e.attributes["EntityType"];
        earlier + [Description(e.attributes["Name"], typeName, LastProperties(types, typeName))]
  }

  /** The map the first pass builds agrees with the list of definitions. */
  predicate Indexes(index: map<string, seq<string>>, types: seq<TypeDefinition>) {
    && (forall name :: name in index ==> index[name] == LastProperties(types, name))
    && (forall d :: d in types ==> d.name in index)
  }

  lemma {:induction false} Undefined(types: seq<TypeDefinition>, name: string)
    requires forall d :: d in types ==> d.name != name
    ensures LastProperties(types, name) == []
  {
    if types != [] {
      Undefined(types[..|types| - 1], name);
    }
  }

  lemma IndexGrows(index: map<string, seq<string>>, types: seq<TypeDefinition>, d: TypeDefinition)
    requires Indexes(index, types)
    ensures Indexes(index[d.name := d.properties], types + [d])
  {
    assert (types + [d])[..|types|] == types;
  }

  lemma IndexLookup(index: map<string, seq<string>>, types: seq<TypeDefinition>, name: string)
    requires Indexes(index, types)
    ensures LastProperties(types, name) == if name in index then index[name] else []
  {
    if name !in index {
      Undefined(types, name);
    }
  }

  /** The sort key `entity_set.lower()` for a given lower-casing. */
  function SetKey(lower: string -> string): Description -> string {
    (d: Description) => lower(d.entitySet)
  }

  method IndexSchema(index: map<string, seq<string>>, ghost types: seq<TypeDefinition>, schema: Element)
    returns (r: map<string, seq<string>>)
    requires Indexes(index, types)
    ensures Indexes(r, types + TypesIn(AttributeOr(schema, "Namespace", ""), schema.children))
  {
    r := index;
    var namespace := AttributeOr(schema, "Namespace", "");
    var children := schema.children;
    assert types + [] == types;
    for i := 0 to |children|
      invariant Indexes(r, types + TypesIn(namespace, children[..i]))
    {
      var child := children[i];
      ghost var sofar := types + TypesIn(namespace, children[..i]);
      assert children[..i + 1][..i] == children[..i];
      if LocalName(child.tag) == "EntityType" {
        var name := namespace + "." + AttributeOr(child, "Name", "");
        IndexGrows(r, sofar, TypeDefinition(name, Properties(child.children)));
        assert types + TypesIn(namespace, children[..i + 1])
            == sofar + [TypeDefinition(name, Properties(child.children))];
        r := r[name := Properties(child.children)];
      }
    }
    assert children[..|children|] == children;
  }

  /** The first pass. */
  method IndexTypes(elements: seq<Element>) returns (index: map<string, seq<string>>)
    ensures Indexes(index, Definitions(elements))
  {
    index := map[];
    for i := 0 to |elements|
      invariant Indexes(index, Definitions(elements[..i]))
    {
      assert elements[..i + 1][..i] == elements[..i];
      if LocalName(elements[i].tag) == "Schema" {
        index := IndexSchema(index, Definitions(elements[..i]), elements[i]);
      }
    }
    assert elements[..|elements|] == elements;
  }

  /** The second pass. */
  method JoinSets(elements: seq<Element>, index: map<string, seq<string>>, ghost types: seq<TypeDefinition>)
    returns (entities: seq<Description>)
    requires Indexes(index, types)
    ensures entities == Joined(elements, types)
  {
    entities := [];
    for i := 0 to |elements|
      invariant entities == Joined(elements[..i], types)
    {
      var element := elements[i];
      assert elements[..i + 1][..i] == elements[..i];
      if LocalName(element.tag) == "EntitySet" {
        var name := Attribute(element, "Name");
        var typeName := Attribute(element, "EntityType");
        if name.Some? && name.value != "" && typeName.Some? && typeName.value != "" {
          IndexLookup(index, types, typeName.value);
          entities := entities +
            [Description(name.value, typeName.value, if typeName.value in index then index[typeName.value] else [])];
        }
      }
    }
    assert elements[..|elements|] == elements;
  }

  /** The two passes give exactly the joined entity sets of the document, stably sorted. */
  method Parse(lower: string -> string, root: Element) returns (r: seq<Description>)
    ensures IsStableSort(SetKey(lower), r, Joined(Iter(root), Definitions(Iter(root))))
  {
    var elements := Iter(root);
    var index := IndexTypes(elements);
    var entities := JoinSets(elements, index, Definitions(elements));
    StableSortIsStable(SetKey(lower), entities);
    return StableSort(SetKey(lower), entities);
  }

  /** What Parse returns is in the order of the lower-cased set names, for the entity sets of the whole document. */
  lemma ParseInOrder(lower: string -> string, root: Element, r: seq<Description>, i: int, j: int)
    requires IsStableSort(SetKey(lower), r, Joined(Iter(root), Definitions(Iter(root))))
    ensures 0 <= i < j < |r| ==> Leq(lower(r[i].entitySet), lower(r[j].entitySet))
    ensures SetsAre(Iter(root), Definitions(Iter(root)), Joined(Iter(root), Definitions(Iter(root))))
  {
    JoinedExactly(Iter(root), Definitions(Iter(root)));
  }

  /** So the outcome of Parse is one definite list. */
  lemma ParseIsDetermined(lower: string -> string, root: Element, r: seq<Description>, t: seq<Description>)
    requires IsStableSort(SetKey(lower), r, Joined(Iter(root), Definitions(Iter(root))))
    requires IsStableSort(SetKey(lower), t, Joined(Iter(root), Definitions(Iter(root))))
    ensures r == t
  {
    StableSortUnique(SetKey(lower), r, t, Joined(Iter(root), Definitions(Iter(root))));
  }

  // The passes, by position and tag.

  /** The tag ends in this name, with nothing or a namespace before it. */
  predicate IsLocal(tag: string, name: string) {
    && |name| <= |tag| && tag[|tag| - |name|..] == name
    && (|tag| == |name| || tag[|tag| - |name| - 1] == '}')
  }

  lemma {:induction false} LocalExactly(tag: string, name: string)
    requires '}' !in name
    ensures LocalName(tag) == name <==> IsLocal(tag, name)
  {
    if '}' !in tag {
      assert |tag| > |name| ==> tag[|tag| - |name| - 1] in tag;
    } else {
      var rest := tag[1..];
      LocalExactly(rest, name);
      assert tag == [tag[0]] + rest;
      if |name| < |tag| {
        assert tag[|tag| - |name|..] == rest[|rest| - |name|..];
        if |name| == |rest| {
          assert rest == rest[0..];
          assert IsLocal(rest, name) <==> rest == name;
          assert rest == name ==> tag[0] == '}';
        }
      } else {
        assert tag == name || !IsLocal(tag, name);
      }
    }
  }

  /** The positions of the elements that are kept, in order. */
  ghost predicate Picks(s: seq<Element>, keep: Element -> bool, picked: seq<nat>) {
    && (forall k, l :: 0 <= k < l < |picked| ==> picked[k] < picked[l])
    && (forall k :: 0 <= k < |picked| ==> picked[k] < |s|)
    && (forall i :: 0 <= i < |s| ==> (i in picked <==> keep(s[i])))
  }

  lemma PicksGrow(s: seq<Element>, keep: Element -> bool, picked: seq<nat>, e: Element)
    requires Picks(s, keep, picked)
    ensures Picks(s + [e], keep, if keep(e) then picked + [|s|] else picked)
  {
    var grown := if keep(e) then picked + [|s|] else picked;
    forall i | 0 <= i < |s| + 1
      ensures i in grown <==> keep((s + [e])[i])
    {
      if i < |s| {
        assert (s + [e])[i] == s[i];
      } else {
        assert i !in picked;
      }
    }
  }

  function Positions(s: seq<Element>, keep: Element -> bool): seq<nat> {
    if s == [] then []
    else
      var earlier := Positions(s[..|s| - 1], keep);
      if keep(s[|s| - 1]) then earlier + [|s| - 1] else earlier
  }

  lemma {:induction false} PositionsPick(s: seq<Element>, keep: Element -> bool)
    ensures Picks(s, keep, Positions(s, keep))
  {
    if s != [] {
      var front, last := s[..|s| - 1], s[|s| - 1];
      assert s == front + [last];
      PositionsPick(front, keep);
      PicksGrow(front, keep, Positions(front, keep), last);
    }
  }

  predicate IsNamedProperty(e: Element) {
    IsLocal(e.tag, "Property") && "Name" in e.attributes
  }

  predicate NamesAt(items: seq<Element>, picked: seq<nat>, names: seq<string>) {
    && |names| == |picked|
    && forall k :: 0 <= k < |picked| ==>
      picked[k] < |items| && "Name" in items[picked[k]].attributes && names[k] == items[picked[k]].attributes["Name"]
  }

  /** The names of the direct Property children, in order. */
  ghost predicate PropertiesAre(items: seq<Element>, names: seq<string>) {
    exists picked :: Picks(items, IsNamedProperty, picked) && NamesAt(items, picked, names)
  }

  lemma NamesAtMore(front: seq<Element>, last: Element, picked: seq<nat>, names: seq<string>)
    requires NamesAt(front, picked, names)
    ensures NamesAt(front + [last], picked, names)
    ensures "Name" in last.attributes ==> NamesAt(front + [last], picked + [|front|], names + [last.attributes["Name"]])
  {
    assert forall k :: 0 <= k < |front| ==> (front + [last])[k] == front[k];
  }

  lemma PropertiesNext(front: seq<Element>, last: Element)
    ensures Properties(front + [last]) ==
      if IsNamedProperty(last) then Properties(front) + [last.attributes["Name"]] else Properties(front)
  {
    LocalExactly(last.tag, "Property");
    assert (front + [last])[..|front|] == front;
  }

  lemma {:induction false} PropertyNames(items: seq<Element>)
    ensures NamesAt(items, Positions(items, IsNamedProperty), Properties(items))
  {
    if items != [] {
      var front, last := items[..|items| - 1], items[|items| - 1];
      assert items == front + [last];
      PropertyNames(front);
      PropertiesNext(front, last);
      NamesAtMore(front, last, Positions(front, IsNamedProperty), Properties(front));
    }
  }

  lemma PropertiesExactly(items: seq<Element>)
    ensures PropertiesAre(items, Properties(items))
  {
    PositionsPick(items, IsNamedProperty);
    PropertyNames(items);
  }

  predicate IsNamedSet(e: Element) {
    && IsLocal(e.tag, "EntitySet")
    && "Name" in e.attributes && e.attributes["Name"] != ""
    && "EntityType" in e.attributes && e.attributes["EntityType"] != ""
  }

  predicate SetsAt(elements: seq<Element>, types: seq<TypeDefinition>, picked: seq<nat>, sets: seq<Description>) {
    && |sets| == |picked|
    && forall k :: 0 <= k < |picked| ==>
      picked[k] < |elements| && IsNamedSet(elements[picked[k]]) && sets[k] == DescriptionOf(elements[picked[k]], types)
  }

  function DescriptionOf(e: Element, types: seq<TypeDefinition>): Description
    requires IsNamedSet(e)
  {
    Description(e.attributes["Name"], e.attributes["EntityType"], LastProperties(types, e.attributes["EntityType"]))
  }

  /** One description for each named and typed entity set, in document order. */
  ghost predicate SetsAre(elements: seq<Element>, types: seq<TypeDefinition>, sets: seq<Description>) {
    exists picked :: Picks(elements, IsNamedSet, picked) && SetsAt(elements, types, picked, sets)
  }

  lemma SetsAtMore(front: seq<Element>, last: Element, types: seq<TypeDefinition>, picked: seq<nat>, sets: seq<Description>)
    requires SetsAt(front, types, picked, sets)
    ensures SetsAt(front + [last], types, picked, sets)
    ensures IsNamedSet(last) ==> SetsAt(front + [last], types, picked + [|front|], sets + [DescriptionOf(last, types)])
  {
    assert forall k :: 0 <= k < |front| ==> (front + [last])[k] == front[k];
  }

  lemma JoinedNext(front: seq<Element>, last: Element, types: seq<TypeDefinition>)
    ensures Joined(front + [last], types) ==
      if IsNamedSet(last) then Joined(front, types) + [DescriptionOf(last, types)] else Joined(front, types)
  {
    LocalExactly(last.tag, "EntitySet");
    assert (front + [last])[..|front|] == front;
  }

  lemma {:induction false} SetDescriptions(elements: seq<Element>, types: seq<TypeDefinition>)
    ensures SetsAt(elements, types, Positions(elements, IsNamedSet), Joined(elements, types))
  {
    if elements != [] {
      var front, last := elements[..|elements| - 1], elements[|elements| - 1];
      assert elements == front + [last];
      SetDescriptions(front, types);
      JoinedNext(front, last, types);
      SetsAtMore(front, last, types, Positions(front, IsNamedSet), Joined(front, types));
    }
  }

  lemma JoinedExactly(elements: seq<Element>, types: seq<TypeDefinition>)
    ensures SetsAre(elements, types, Joined(elements, types))
  {
    PositionsPick(elements, IsNamedSet);
    SetDescriptions(elements, types);
  }

  function TextOf(e: Element, name: string): string {
    if name in e.attributes then e.attributes[name] else ""
  }

  /** Child j of this schema defines the type of this name. */
  predicate DefinesIn(schema: Element, j: int, name: string) {
    && 0 <= j < |schema.children| && IsLocal(schema.children[j].tag, "EntityType")
    && TextOf(schema, "Namespace") + "." + TextOf(schema.children[j], "Name") == name
  }

  predicate LastIn(schema: Element, j: int, name: string) {
    DefinesIn(schema, j, name) && forall l :: j < l < |schema.children| ==> !DefinesIn(schema, l, name)
  }

  predicate Defined(types: seq<TypeDefinition>, name: string) {
    exists d :: d in types && d.name == name
  }

  lemma {:induction false} LastOfConcat(a: seq<TypeDefinition>, b: seq<TypeDefinition>, name: string)
    ensures LastProperties(a + b, name) == if Defined(b, name) then LastProperties(b, name) else LastProperties(a, name)
  {
    if b == [] {
      assert a + b == a;
    } else {
      var n := |b| - 1;
      assert (a + b)[..|a + b| - 1] == a + b[..n];
      LastOfConcat(a, b[..n], name);
      assert b == b[..n] + [b[n]];
    }
  }

  predicate DefinesBefore(schema: Element, n: int, name: string)
    requires n <= |schema.children|
  {
    exists j :: 0 <= j < n && DefinesIn(schema, j, name)
  }

  predicate IsTypeElement(e: Element) {
    IsLocal(e.tag, "EntityType")
  }

  function TypeOf(namespace: string, child: Element): TypeDefinition {
    TypeDefinition(namespace + "." + AttributeOr(child, "Name", ""), Properties(child.children))
  }

  /** The types are those of the children at these positions. */
  predicate TypesAt(namespace: string, children: seq<Element>, picked: seq<nat>, types: seq<TypeDefinition>) {
    && |types| == |picked|
    && forall k :: 0 <= k < |picked| ==> picked[k] < |children| && types[k] == TypeOf(namespace, children[picked[k]])
  }

  lemma TypesAtMore(namespace: string, front: seq<Element>, last: Element, picked: seq<nat>, types: seq<TypeDefinition>)
    requires TypesAt(namespace, front, picked, types)
    ensures TypesAt(namespace, front + [last], picked, types)
    ensures TypesAt(namespace, front + [last], picked + [|front|], types + [TypeOf(namespace, last)])
  {
    assert forall k :: 0 <= k < |front| ==> (front + [last])[k] == front[k];
  }

  lemma TypesMore(namespace: string, front: seq<Element>, last: Element)
    ensures TypesIn(namespace, front + [last]) ==
      if IsTypeElement(last) then TypesIn(namespace, front) + [TypeOf(namespace, last)] else TypesIn(namespace, front)
  {
    LocalExactly(last.tag, "EntityType");
    assert (front + [last])[..|front|] == front;
  }

  lemma {:induction false} TypesByPosition(namespace: string, children: seq<Element>)
    ensures TypesAt(namespace, children, Positions(children, IsTypeElement), TypesIn(namespace, children))
  {
    if children != [] {
      var front, last := children[..|children| - 1], children[|children| - 1];
      assert children == front + [last];
      TypesByPosition(namespace, front);
      TypesMore(namespace, front, last);
      TypesAtMore(namespace, front, last, Positions(front, IsTypeElement), TypesIn(namespace, front));
    }
  }

  /** The last definition of a name decides. */
  lemma {:induction false} LastIndex(types: seq<TypeDefinition>, name: string, k: nat)
    requires k < |types| && types[k].name == name && forall l :: k < l < |types| ==> types[l].name != name
    ensures LastProperties(types, name) == types[k].properties
  {
    if k < |types| - 1 {
      LastIndex(types[..|types| - 1], name, k);
    }
  }

  lemma DefinitionsNext(elements: seq<Element>, n: nat, name: string)
    requires n < |elements|
    ensures
      var before, after := Definitions(elements[..n]), Definitions(elements[..n + 1]);
      var types := TypesIn(TextOf(elements[n], "Namespace"), elements[n].children);
      if IsLocal(elements[n].tag, "Schema") && Defined(types, name) then
        Defined(after, name) && LastProperties(after, name) == LastProperties(types, name)
      else (Defined(after, name) <==> Defined(before, name)) && LastProperties(after, name) == LastProperties(before, name)
  {
    var before := Definitions(elements[..n]);
    var types := TypesIn(TextOf(elements[n], "Namespace"), elements[n].children);
    assert elements[..n + 1][..n] == elements[..n];
    LocalExactly(elements[n].tag, "Schema");
    LastOfConcat(before, types, name);
    assert forall d :: d in before + types <==> d in before || d in types;
  }

  /** Among the first n elements, where the last definition of a type stands. */
  predicate LastUntil(elements: seq<Element>, n: int, i: int, j: int, name: string)
    requires n <= |elements|
  {
    && 0 <= i < n && IsLocal(elements[i].tag, "Schema") && LastIn(elements[i], j, name)
    && forall k :: i < k < n && IsLocal(elements[k].tag, "Schema") ==>
      !DefinesBefore(elements[k], |elements[k].children|, name)
  }

  predicate NoneUntil(elements: seq<Element>, n: int, name: string)
    requires n <= |elements|
  {
    forall k :: 0 <= k < n && IsLocal(elements[k].tag, "Schema") ==>
      !DefinesBefore(elements[k], |elements[k].children|, name)
  }

  function TypePositions(schema: Element): seq<nat> {
    Positions(schema.children, IsTypeElement)
  }

  function SchemaTypeList(schema: Element): seq<TypeDefinition> {
    TypesIn(TextOf(schema, "Namespace"), schema.children)
  }

  /** The k-th type of a schema is defined by the child at the k-th position. */
  lemma TypeNamed(schema: Element, k: nat, name: string)
    requires k < |SchemaTypeList(schema)|
    ensures |TypePositions(schema)| == |SchemaTypeList(schema)| && TypePositions(schema)[k] < |schema.children|
    ensures SchemaTypeList(schema)[k].name == name <==> DefinesIn(schema, TypePositions(schema)[k], name)
    ensures SchemaTypeList(schema)[k].properties == Properties(schema.children[TypePositions(schema)[k]].children)
  {
    TypesByPosition(TextOf(schema, "Namespace"), schema.children);
    PositionsPick(schema.children, IsTypeElement);
    var i := TypePositions(schema)[k];
    assert i in TypePositions(schema) && IsTypeElement(schema.children[i]);
  }

  lemma DefiningPosition(schema: Element, j: nat, name: string) returns (k: nat)
    requires DefinesIn(schema, j, name)
    ensures |TypePositions(schema)| == |SchemaTypeList(schema)| && k < |TypePositions(schema)| && TypePositions(schema)[k] == j
    ensures forall l :: k < l < |TypePositions(schema)| ==> j < TypePositions(schema)[l]
  {
    TypesByPosition(TextOf(schema, "Namespace"), schema.children);
    PositionsPick(schema.children, IsTypeElement);
    assert IsTypeElement(schema.children[j]) && j in TypePositions(schema);
    k :| 0 <= k < |TypePositions(schema)| && TypePositions(schema)[k] == j;
  }

  lemma TypeNames(schema: Element, name: string)
    ensures Defined(SchemaTypeList(schema), name) <==> DefinesBefore(schema, |schema.children|, name)
  {
    var types := SchemaTypeList(schema);
    if d :| d in types && d.name == name {
      var k :| 0 <= k < |types| && types[k] == d;
      TypeNamed(schema, k, name);
    }
    if j :| 0 <= j < |schema.children| && DefinesIn(schema, j, name) {
      var k := DefiningPosition(schema, j, name);
      TypeNamed(schema, k, name);
      assert types[k] in types;
    }
  }

  lemma SchemaTypes(schema: Element, name: string, j: int)
    ensures
      var types := TypesIn(TextOf(schema, "Namespace"), schema.children);
      && (Defined(types, name) <==> DefinesBefore(schema, |schema.children|, name))
      && (LastIn(schema, j, name) ==> LastProperties(types, name) == Properties(schema.children[j].children))
  {
    TypeNames(schema, name);
    if LastIn(schema, j, name) {
      var types := SchemaTypeList(schema);
      var k := DefiningPosition(schema, j, name);
      TypeNamed(schema, k, name);
      forall l | k < l < |types|
        ensures types[l].name != name
      {
        TypeNamed(schema, l, name);
      }
      LastIndex(types, name, k);
    }
  }

  /** What the first n elements make of a type. */
  predicate DefinedUntil(elements: seq<Element>, n: int, name: string, i: int, j: int)
    requires 0 <= n <= |elements|
  {
    var properties := LastProperties(Definitions(elements[..n]), name);
    && (LastUntil(elements, n, i, j, name) ==> properties == Properties(elements[i].children[j].children))
    && (NoneUntil(elements, n, name) ==> properties == [])
  }

  lemma LastUntilNext(elements: seq<Element>, n: nat, i: int, j: int, name: string)
    requires n < |elements| && LastUntil(elements, n + 1, i, j, name)
    ensures
      if i == n then IsLocal(elements[n].tag, "Schema") && DefinesBefore(elements[n], |elements[n].children|, name)
      else
        && LastUntil(elements, n, i, j, name)
        && !(IsLocal(elements[n].tag, "Schema") && DefinesBefore(elements[n], |elements[n].children|, name))
  {
  }

  lemma DefinedNext(elements: seq<Element>, n: nat, name: string, i: int, j: int)
    requires n < |elements| && DefinedUntil(elements, n, name, i, j)
    ensures DefinedUntil(elements, n + 1, name, i, j)
  {
    DefinitionsNext(elements, n, name);
    SchemaTypes(elements[n], name, j);
    if LastUntil(elements, n + 1, i, j, name) {
      LastUntilNext(elements, n, i, j, name);
    }
  }

  lemma {:induction false} DefinitionsUntil(elements: seq<Element>, n: nat, name: string, i: int, j: int)
    requires n <= |elements|
    ensures DefinedUntil(elements, n, name, i, j)
  {
    if n > 0 {
      DefinitionsUntil(elements, n - 1, name, i, j);
      DefinedNext(elements, n - 1, name, i, j);
    }
  }

  /** What the index holds for a type: the properties of its last definition, in document order, or nothing. */
  lemma TypeExactly(elements: seq<Element>, name: string, i: int, j: int)
    ensures LastUntil(elements, |elements|, i, j, name) ==>
      PropertiesAre(elements[i].children[j].children, LastProperties(Definitions(elements), name))
    ensures NoneUntil(elements, |elements|, name) ==> LastProperties(Definitions(elements), name) == []
  {
    DefinitionsUntil(elements, |elements|, name, i, j);
    assert elements[..|elements|] == elements;
    if LastUntil(elements, |elements|, i, j, name) {
      PropertiesExactly(elements[i].children[j].children);
    }
  }

  /** Document order: an element comes before its children, and those one after the other with all they hold. */
  lemma {:induction false} IterInOrder(a: seq<Element>, b: seq<Element>)
    ensures IterAll(a + b) == IterAll(a) + IterAll(b)
    ensures forall e: Element :: Iter(e) == [e] + IterAll(e.children) && IterAll([e]) == Iter(e)
  {
    if a == [] {
      assert a + b == b;
    } else {
      assert (a + b)[1..] == a[1..] + b;
      IterInOrder(a[1..], b);
    }
    forall e: Element
      ensures IterAll([e]) == Iter(e)
    {
      assert [e][1..] == [];
    }
  }

  // Search.

  predicate Contains(text: string, part: string) {
    exists i :: 0 <= i <= |text| && part <= text[i..]
  }

  predicate Matches(fold: string -> string, term: string, d: Description) {
    || Contains(fold(d.entitySet), term)
    || Contains(fold(d.entityType), term)
    || exists p :: p in d.properties && Contains(fold(p), term)
  }

  function Matching(fold: string -> string, term: string, ds: seq<Description>): seq<Description> {
    if ds == [] then []
    else
      var earlier := Matching(fold, term, ds[..|ds| - 1]);
      if Matches(fold, term, ds[|ds| - 1]) then earlier + [ds[|ds| - 1]] else earlier
  }

  /** None is the ValueError for an empty term. */
  function Search(fold: string -> string, term: string, ds: seq<Description>): Option<seq<Description>> {
    var normalized := Strip(fold(term));
    if normalized == "" then None else Some(Matching(fold, normalized, ds))
  }

  /** A description matches when the term occurs in its set name, its type name or one of its properties, up to case. */
  lemma MatchesExactly(fold: string -> string, term: string, d: Description)
    ensures Matches(fold, term, d) <==>
      exists text, before, after ::
        text in [d.entitySet, d.entityType] + d.properties && fold(text) == before + term + after
  {
    var texts := [d.entitySet, d.entityType] + d.properties;
    forall text: string
      ensures Contains(text, term) <==> exists before, after :: text == before + term + after
    {
      OccursExactly(text, term);
    }
    assert forall text :: text in texts <==> text == d.entitySet || text == d.entityType || text in d.properties;
    if Matches(fold, term, d) {
      var text :| text in texts && Contains(fold(text), term);
      var before, after :| fold(text) == before + term + after;
    }
    if text, before, after :| text in texts && fold(text) == before + term + after {
      assert Contains(fold(text), term);
    }
  }

  lemma OccursExactly(text: string, part: string)
    ensures Contains(text, part) <==> exists before, after :: text == before + part + after
  {
    if Contains(text, part) {
      var i :| 0 <= i <= |text| && part <= text[i..];
      assert text == text[..i] + part + text[i + |part|..];
    }
    if before, after :| text == before + part + after {
      assert text[|before|..] == part + after;
    }
  }

  predicate Sublist(part: seq<Description>, whole: seq<Description>) {
    part == [] || (whole != [] &&
      (|| Sublist(part, whole[..|whole| - 1])
       || (part[|part| - 1] == whole[|whole| - 1] && Sublist(part[..|part| - 1], whole[..|whole| - 1]))))
  }

  /** The result keeps the order and holds each matching description as often as the index does, and nothing else. */
  lemma {:induction false} MatchingExactly(fold: string -> string, term: string, ds: seq<Description>, d: Description)
    ensures Sublist(Matching(fold, term, ds), ds)
    ensures multiset(Matching(fold, term, ds))[d] == if Matches(fold, term, d) then multiset(ds)[d] else 0
  {
    if ds != [] {
      var n := |ds| - 1;
      MatchingExactly(fold, term, ds[..n], d);
      assert ds == ds[..n] + [ds[n]];
      if Matches(fold, term, ds[n]) {
        var m := Matching(fold, term, ds);
        assert m[..|m| - 1] == Matching(fold, term, ds[..n]);
      }
    }
  }

  lemma MatchingAppend(fold: string -> string, term: string, ds: seq<Description>, d: Description)
    ensures Matching(fold, term, ds + [d]) == Matching(fold, term, ds) + if Matches(fold, term, d) then [d] else []
  {
    assert (ds + [d])[..|ds|] == ds;
  }

  /** Selecting and grouping by key commute. */
  lemma {:induction false} MatchingOfClass(
    fold: string -> string, term: string, key: Description -> string, ds: seq<Description>, k: string)
    ensures Class(key, Matching(fold, term, ds), k) == Matching(fold, term, Class(key, ds, k))
  {
    if ds != [] {
      var front, last := ds[..|ds| - 1], ds[|ds| - 1];
      MatchingOfClass(fold, term, key, front, k);
      if Matches(fold, term, last) {
        ClassAppend(key, Matching(fold, term, front), last, k);
      }
      if key(last) == k {
        MatchingAppend(fold, term, Class(key, front, k), last);
      }
    }
  }

  lemma {:induction false} MatchingKeepsOrder(
    fold: string -> string, term: string, key: Description -> string, ds: seq<Description>)
    requires Sorted(key, ds)
    ensures Sorted(key, Matching(fold, term, ds))
  {
    if ds != [] {
      var front, last := ds[..|ds| - 1], ds[|ds| - 1];
      MatchingKeepsOrder(fold, term, key, front);
      var m := Matching(fold, term, front);
      forall i | 0 <= i < |m|
        ensures Leq(key(m[i]), key(last))
      {
        MatchingExactly(fold, term, front, m[i]);
        assert m[i] in multiset(m) && m[i] in multiset(front);
        var j :| 0 <= j < |front| && front[j] == m[i];
        assert ds[j] == m[i];
      }
    }
  }

  /**
    A search over what Parse returns: an error exactly for a blank term, and otherwise the matching entity
    sets of the document, stably sorted.
  */
  lemma SearchFindsExactly(lower: string -> string, fold: string -> string, term: string, root: Element, r: seq<Description>)
    requires IsStableSort(SetKey(lower), r, Joined(Iter(root), Definitions(Iter(root))))
    ensures
      var sets := Joined(Iter(root), Definitions(Iter(root)));
      var normalized := Strip(fold(term));
      var found := Search(fold, term, r);
      && (found.None? <==> normalized == "")
      && (found.Some? ==> IsStableSort(SetKey(lower), found.value, Matching(fold, normalized, sets)))
  {
    var sets := Joined(Iter(root), Definitions(Iter(root)));
    var normalized := Strip(fold(term));
    var key := SetKey(lower);
    MatchingKeepsOrder(fold, normalized, key, r);
    forall k
      ensures Class(key, Matching(fold, normalized, r), k) == Class(key, Matching(fold, normalized, sets), k)
    {
      MatchingOfClass(fold, normalized, key, r, k);
      MatchingOfClass(fold, normalized, key, sets, k);
    }
  }
}
