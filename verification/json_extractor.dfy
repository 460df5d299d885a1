/** `JSONExtractor` of `schema_extractor/extractors/json_extractor.py` over an
    already-parsed value: classification, the schema tree, the data-node
    list, the depth statistic and the assembly of a `Schema`. */
module JsonExtractor {
  import opened Wrappers
  import opened Text
  import opened Assoc
  import opened Model
  import opened Patterns
  import opened DataNodes

  /** `_determine_data_type`: one tag per kind of value; strings are refined
      by `InferStringType`, so only to DATE or DATETIME. */
  function ClassifyJson(v: Json): (t: DataType)
    ensures t == Null <==> v.JNull?
    ensures t == Boolean <==> v.JBool?
    ensures t == Integer <==> v.JInt?
    ensures t == Float <==> v.JFloat?
    ensures t in {String, Date, DateTime} <==> v.JStr?
    ensures t == Array <==> v.JArr?
    ensures t == Object <==> v.JObj?
    ensures t == Unknown <==> v.JOther?
  {
    match v
    case JNull => Null
    case JBool(_) => Boolean
    case JInt(_) => Integer
    case JFloat(_) => Float
    case JStr(s) => InferStringTypeExact(s); InferStringType(s)
    case JArr(_) => Array
    case JObj(_) => Object
    case JOther => Unknown
  }

  /** A value `json.load` can produce: every object's keys are distinct. */
  ghost predicate WellFormed(v: Json)
    decreases v
  {
    match v
    case JObj(fields) => UniqueKeys(fields) && FieldsWellFormed(fields)
    case JArr(items) => ItemsWellFormed(items)
    case _ => true
  }

  ghost predicate FieldsWellFormed(fields: seq<(string, Json)>)
    decreases fields
  {
    fields != [] ==>
      assert fields[0].1 < fields[0];
      WellFormed(fields[0].1) && FieldsWellFormed(fields[1..])
  }

  ghost predicate ItemsWellFormed(items: seq<Json>)
    decreases items
  {
    items != [] ==> WellFormed(items[0]) && ItemsWellFormed(items[1..])
  }

  lemma {:induction false} FieldsWellFormedAppend(a: seq<(string, Json)>, b: seq<(string, Json)>)
    requires FieldsWellFormed(a) && FieldsWellFormed(b)
    ensures FieldsWellFormed(a + b)
    decreases a
  {
    if a == [] {
      assert a + b == b;
    } else {
      assert (a + b)[0] == a[0];
      assert (a + b)[1..] == a[1..] + b;
      FieldsWellFormedAppend(a[1..], b);
    }
  }

  /** Fields holding no object or array are well-formed. */
  lemma {:induction false} ScalarFieldsWellFormed(fields: seq<(string, Json)>)
    requires forall i :: 0 <= i < |fields| ==> !fields[i].1.JObj? && !fields[i].1.JArr?
    ensures FieldsWellFormed(fields)
    decreases fields
  {
    if fields != [] {
      ScalarFieldsWellFormed(fields[1..]);
    }
  }

  // ---- the schema tree ----

  /** The loop `for item in data[1:]` with its `break`: whether some item
      classifies differently from `first`. */
  function MixedItems(rest: seq<Json>, first: DataType): (mixed: bool)
    ensures mixed <==> exists j :: 0 <= j < |rest| && ClassifyJson(rest[j]) != first
  {
    if rest == [] then false
    else if ClassifyJson(rest[0]) != first then true
    else
      var m := MixedItems(rest[1..], first);
      assert forall j :: 1 <= j < |rest| ==> rest[1..][j - 1] == rest[j];
      m
  }

  /** `_extract_element_schema(data, name)` */
  function BuildJson(v: Json, name: string): (e: Element)
    decreases v
    ensures e.name == name && e.dataType == ClassifyJson(v)
    ensures !e.required && e.attributes == []
    ensures e.examples == if ClassifyJson(v).KeepsExample() then [v] else []
    ensures e.description ==
      Some(if v.JNull? then "Property: " + name + " (nullable)" else "Property: " + name)
    ensures !v.JObj? ==> e.properties == []
    ensures !(v.JArr? && |v.items| > 0) ==> e.arrayType == None && e.occurrences == 1
    ensures v.JArr? && |v.items| > 0 ==> e.occurrences == |v.items| && e.arrayType.Some?
    ensures Unconstrained(e)
  {
    var t := ClassifyJson(v);
    var base := NewElement(name, t, Some("Property: " + name));
    match v
    case JObj(fields) => base.(properties := BuildFields(fields, []))
    case JArr(items) =>
      if |items| == 0 then base
      else
        var first := BuildJson(items[0], "item");
        var mixed := MixedItems(items[1..], first.dataType);
        assert mixed <==> exists j :: 1 <= j < |items| && ClassifyJson(items[j]) != ClassifyJson(items[0]) by {
          assert forall j :: 1 <= j < |items| ==> items[1..][j - 1] == items[j];
        }
        var itemType := if mixed then first.(dataType := Unknown) else first;
        base.(arrayType := Some(itemType), occurrences := |items|)
    case _ =>
      if t.KeepsExample() then base.(examples := [v])
      else if t == Null then base.(description := Some("Property: " + name + " (nullable)"))
      else base
  }

  /** A non-empty array's item schema is its first item's schema, retyped
      UNKNOWN exactly when some later item classifies differently. */
  lemma ArrayItemSchema(items: seq<Json>, name: string)
    requires |items| > 0
    ensures var it := BuildJson(JArr(items), name).arrayType.value;
      && it.(dataType := ClassifyJson(items[0])) == BuildJson(items[0], "item")
      && it.dataType ==
           if exists j :: 1 <= j < |items| && ClassifyJson(items[j]) != ClassifyJson(items[0])
           then Unknown else ClassifyJson(items[0])
  {
  }

  /** The loop over `data.items()`, assigning `properties[prop_name]`. */
  function BuildFields(fields: seq<(string, Json)>, acc: seq<(string, Element)>): seq<(string, Element)>
    decreases fields
  {
    if fields == [] then acc
    else
      assert fields[0].1 < fields[0];
      var (k, v) := fields[0];
      BuildFields(fields[1..], Put(acc, k, BuildJson(v, k)))
  }

  /** The property an object key gets: the key with its value's schema. */
  function FieldSchema(f: (string, Json)): (string, Element) {
    (f.0, BuildJson(f.1, f.0))
  }

  /** The schemas of all members, in order. */
  function FieldSchemas(fields: seq<(string, Json)>): (r: seq<(string, Element)>)
    ensures |r| == |fields|
    ensures forall i :: 0 <= i < |fields| ==> r[i] == FieldSchema(fields[i])
    decreases fields
  {
    if fields == [] then []
    else
      var r := [FieldSchema(fields[0])] + FieldSchemas(fields[1..]);
      assert forall i :: 1 <= i < |fields| ==> fields[1..][i - 1] == fields[i];
      r
  }

  /** No key of `fields` is a key of `acc`. */
  ghost predicate FreshKeys(fields: seq<(string, Json)>, acc: seq<(string, Element)>) {
    forall i, j :: 0 <= i < |fields| && 0 <= j < |acc| ==> fields[i].0 != acc[j].0
  }

  /** With distinct keys, the loop appends one property per key, in order. */
  lemma {:induction false} BuildFieldsAppends(fields: seq<(string, Json)>, acc: seq<(string, Element)>)
    requires UniqueKeys(fields) && FreshKeys(fields, acc)
    ensures BuildFields(fields, acc) == acc + FieldSchemas(fields)
    decreases fields
  {
    if fields != [] {
      var acc' := BuildFieldsStep(fields, acc);
      BuildFieldsAppends(fields[1..], acc');
      AppendAssoc(acc, [FieldSchema(fields[0])], FieldSchemas(fields[1..]));
    }
  }

  lemma AppendAssoc<T>(a: seq<T>, b: seq<T>, c: seq<T>)
    ensures (a + b) + c == a + (b + c)
  {
  }

  /** One turn of the loop on a fresh key appends its property. */
  lemma BuildFieldsStep(fields: seq<(string, Json)>, acc: seq<(string, Element)>) returns (acc': seq<(string, Element)>)
    requires fields != [] && UniqueKeys(fields) && FreshKeys(fields, acc)
    ensures acc' == acc + [FieldSchema(fields[0])]
    ensures BuildFields(fields, acc) == BuildFields(fields[1..], acc')
    ensures UniqueKeys(fields[1..]) && FreshKeys(fields[1..], acc')
  {
    var k := fields[0].0;
    var e := BuildJson(fields[0].1, k);
    acc' := acc + [(k, e)];
    assert k !in Keys(acc) by {
      forall j | 0 <= j < |acc|
        ensures Keys(acc)[j] != k
      {
        assert fields[0].0 != acc[j].0;
      }
    }
    PutNew(acc, k, e);
    TailFresh(fields, acc);
  }

  lemma TailFresh(fields: seq<(string, Json)>, acc: seq<(string, Element)>)
    requires fields != [] && UniqueKeys(fields) && FreshKeys(fields, acc)
    ensures UniqueKeys(fields[1..]) && FreshKeys(fields[1..], acc + [FieldSchema(fields[0])])
  {
    var rest := fields[1..];
    var acc' := acc + [FieldSchema(fields[0])];
    forall i, j | 0 <= i < |rest| && 0 <= j < |acc'|
      ensures rest[i].0 != acc'[j].0
    {
      assert rest[i] == fields[i + 1];
      if j < |acc| {
        assert acc'[j] == acc[j];
      } else {
        assert acc'[j].0 == fields[0].0;
      }
    }
    forall i, j | 0 <= i < j < |rest|
      ensures rest[i].0 != rest[j].0
    {
      assert rest[i] == fields[i + 1] && rest[j] == fields[j + 1];
    }
  }

  /** An object's schema has exactly the object's keys as properties, in
      order, each the schema of its value named after its key. */
  lemma ObjectProperties(fields: seq<(string, Json)>, name: string)
    requires UniqueKeys(fields)
    ensures BuildJson(JObj(fields), name).properties == FieldSchemas(fields)
  {
    BuildFieldsAppends(fields, []);
  }

  // ---- an inferred schema accepts its own document ----

  /** `v` has the shape `e` describes: an element typed UNKNOWN accepts
      anything; otherwise `v` classifies as `e`'s type, an object has exactly
      `e`'s property keys with each field fitting its property, and a
      non-empty array fits `e`'s item schema with its first item and matches
      the item type with every item. */
  ghost predicate Fits(v: Json, e: Element)
    decreases v
  {
    e.dataType == Unknown ||
    (ClassifyJson(v) == e.dataType &&
      match v
      case JObj(fields) => Keys(e.properties) == Keys(fields) && FieldsFit(fields, e.properties)
      case JArr(items) =>
        if items == [] then e.arrayType == None
        else
          && e.arrayType.Some?
          && (e.arrayType.value.dataType == Unknown
              || forall j :: 0 <= j < |items| ==> ClassifyJson(items[j]) == e.arrayType.value.dataType)
          && Fits(items[0], e.arrayType.value)
      case _ => true)
  }

  ghost predicate FieldsFit(fields: seq<(string, Json)>, props: seq<(string, Element)>)
    decreases fields
  {
    |props| == |fields| &&
    (fields != [] ==>
      assert fields[0].1 < fields[0];
      Fits(fields[0].1, props[0].1) && FieldsFit(fields[1..], props[1..]))
  }

  /** Every well-formed value fits the schema inferred from it. */
  lemma {:induction false} BuildJsonFits(v: Json, name: string)
    requires WellFormed(v)
    ensures Fits(v, BuildJson(v, name))
    decreases v, 1
  {
    var e := BuildJson(v, name);
    match v {
      case JObj(fields) =>
        ObjectProperties(fields, name);
        assert Keys(e.properties) == Keys(fields);
        FieldsFitBuilt(fields, e.properties);
      case JArr(items) =>
        if items != [] {
          ArrayItemSchema(items, name);
          BuildJsonFits(items[0], "item");
          var first := BuildJson(items[0], "item");
          if e.arrayType.value.dataType != Unknown {
            assert e.arrayType.value == first;
          }
        }
      case _ =>
    }
  }

  lemma {:induction false} FieldsFitBuilt(fields: seq<(string, Json)>, props: seq<(string, Element)>)
    requires FieldsWellFormed(fields)
    requires |props| == |fields|
    requires forall i :: 0 <= i < |fields| ==> props[i] == FieldSchema(fields[i])
    ensures FieldsFit(fields, props)
    decreases fields, 0
  {
    if fields != [] {
      assert fields[0].1 < fields[0];
      BuildJsonFits(fields[0].1, fields[0].0);
      forall i | 0 <= i < |fields[1..]|
        ensures props[1..][i] == FieldSchema(fields[1..][i])
      {
        assert props[1..][i] == props[i + 1] && fields[1..][i] == fields[i + 1];
      }
      FieldsFitBuilt(fields[1..], props[1..]);
    }
  }

  // ---- property names (the `property_counts` keys) ----

  /** The keys `_extract_element_schema` counts: every object key on the
      walk, which enters only the first item of an array. */
  function CountedNames(v: Json): set<string>
    decreases v
  {
    match v
    case JObj(fields) => FieldNames(fields)
    case JArr(items) => if items == [] then {} else CountedNames(items[0])
    case _ => {}
  }

  function FieldNames(fields: seq<(string, Json)>): set<string>
    decreases fields
  {
    if fields == [] then {}
    else
      assert fields[0].1 < fields[0];
      {fields[0].0} + CountedNames(fields[0].1) + FieldNames(fields[1..])
  }

  /** Every property key occurring anywhere in a schema tree. */
  function PropertyNames(e: Element): set<string>
    decreases e
  {
    PropsNames(e.properties) + (match e.arrayType case None => {} case Some(a) => PropertyNames(a))
  }

  function PropsNames(ps: seq<(string, Element)>): set<string>
    decreases ps
  {
    if ps == [] then {}
    else
      assert ps[0].1 < ps[0];
      {ps[0].0} + PropertyNames(ps[0].1) + PropsNames(ps[1..])
  }

  /** `total_elements` counts exactly the distinct property names of the
      inferred schema tree. */
  lemma {:induction false} CountedNamesAreSchemaNames(v: Json, name: string)
    requires WellFormed(v)
    ensures CountedNames(v) == PropertyNames(BuildJson(v, name))
    decreases v, 1
  {
    var e := BuildJson(v, name);
    match v {
      case JObj(fields) =>
        ObjectProperties(fields, name);
        FieldNamesBuilt(fields, e.properties);
      case JArr(items) =>
        if items != [] {
          ArrayItemSchema(items, name);
          CountedNamesAreSchemaNames(items[0], "item");
          assert PropertyNames(e.arrayType.value) == PropertyNames(BuildJson(items[0], "item"));
        }
      case _ =>
    }
  }

  lemma {:induction false} FieldNamesBuilt(fields: seq<(string, Json)>, props: seq<(string, Element)>)
    requires FieldsWellFormed(fields)
    requires |props| == |fields|
    requires forall i :: 0 <= i < |fields| ==> props[i] == FieldSchema(fields[i])
    ensures FieldNames(fields) == PropsNames(props)
    decreases fields, 0
  {
    if fields != [] {
      assert fields[0].1 < fields[0];
      CountedNamesAreSchemaNames(fields[0].1, fields[0].0);
      forall i | 0 <= i < |fields[1..]|
        ensures props[1..][i] == FieldSchema(fields[1..][i])
      {
        assert props[1..][i] == props[i + 1] && fields[1..][i] == fields[i + 1];
      }
      FieldNamesBuilt(fields[1..], props[1..]);
    }
  }

  // ---- data nodes ----

  /** Length of the dot-free run that ends `path[..n]`. */
  function TailLength(path: string, n: nat): (m: nat)
    requires n <= |path|
    ensures m <= n
  {
    if n == 0 || path[n - 1] == '.' then 0 else TailLength(path, n - 1) + 1
  }

  /** `path.split('.')[-1] if '.' in path else path`: the text after the last dot. */
  function LastSegment(path: string): string {
    path[|path| - TailLength(path, |path|)..]
  }

  /** The run counted by `TailLength` holds no dot and, unless it reaches the
      start, is preceded by one. */
  lemma {:induction false} TailLengthRun(path: string, n: nat)
    requires n <= |path|
    ensures forall i :: n - TailLength(path, n) <= i < n ==> path[i] != '.'
    ensures TailLength(path, n) < n ==> path[n - TailLength(path, n) - 1] == '.'
  {
    if n > 0 && path[n - 1] != '.' {
      TailLengthRun(path, n - 1);
    }
  }

  /** The name is the longest dot-free suffix of the path. */
  lemma LastSegmentSuffix(path: string)
    ensures var r := LastSegment(path);
      && |r| <= |path| && r == path[|path| - |r|..]
      && '.' !in r
      && (|r| < |path| ==> path[|path| - |r| - 1] == '.')
  {
    TailLengthRun(path, |path|);
  }

  /** The path of an object member: `f"{path}.{key}"`, except directly under
      the root, where it is the bare key. */
  function ChildPath(path: string, key: string): string {
    if path != "root" then path + "." + key else key
  }

  /** The path of an array item: `f"{path}[{i}]"`. */
  function ItemPath(path: string, i: nat): string {
    path + "[" + NatToString(i) + "]"
  }

  /** `DataNode(...)` for one JSON position. */
  function JsonNode(v: Json, path: string, depth: nat, parent: Option<string>): DataNode {
    var t := ClassifyJson(v);
    DataNode(path, LastSegment(path), v, t, depth, parent, !t.IsContainer(), "Data node at path: " + path)
  }

  /** `_extract_data_nodes(data, path, depth, parent_path)` */
  function JsonNodes(v: Json, path: string, depth: nat, parent: Option<string>): seq<DataNode>
    decreases v, 1
  {
    [JsonNode(v, path, depth, parent)] + ChildNodes(v, path, depth + 1)
  }

  /** The lists of a value's members or items, one level below it. */
  function ChildNodes(v: Json, path: string, depth: nat): seq<DataNode>
    decreases v, 0
  {
    match v
    case JObj(fields) => FieldNodes(fields, path, depth)
    case JArr(items) => ItemNodes(items, 0, path, depth)
    case _ => []
  }

  function FieldNodes(fields: seq<(string, Json)>, path: string, depth: nat): seq<DataNode>
    decreases fields, 2
  {
    if fields == [] then []
    else
      assert fields[0].1 < fields[0];
      JsonNodes(fields[0].1, ChildPath(path, fields[0].0), depth, Some(path))
      + FieldNodes(fields[1..], path, depth)
  }

  function ItemNodes(items: seq<Json>, index: nat, path: string, depth: nat): seq<DataNode>
    decreases items, 2
  {
    if items == [] then []
    else JsonNodes(items[0], ItemPath(path, index), depth, Some(path)) + ItemNodes(items[1..], index + 1, path, depth)
  }

  /** Number of values in a document: the value itself plus all nested ones. */
  function JsonSize(v: Json): nat
    decreases v
  {
    1 + match v
        case JObj(fields) => FieldsSize(fields)
        case JArr(items) => ItemsSize(items)
        case _ => 0
  }

  function FieldsSize(fields: seq<(string, Json)>): nat
    decreases fields
  {
    if fields == [] then 0
    else
      assert fields[0].1 < fields[0];
      JsonSize(fields[0].1) + FieldsSize(fields[1..])
  }

  function ItemsSize(items: seq<Json>): nat
    decreases items
  {
    if items == [] then 0 else JsonSize(items[0]) + ItemsSize(items[1..])
  }

  function Max(a: nat, b: nat): nat {
    if a >= b then a else b
  }

  /** `_calculate_max_depth(data, current_depth)` */
  function JsonMaxDepth(v: Json, current: nat): nat
    decreases v
  {
    match v
    case JObj(fields) => FieldsMaxDepth(fields, current + 1, current)
    case JArr(items) => ItemsMaxDepth(items, current + 1, current)
    case _ => current
  }

  function FieldsMaxDepth(fields: seq<(string, Json)>, childDepth: nat, best: nat): nat
    decreases fields
  {
    if fields == [] then best
    else
      assert fields[0].1 < fields[0];
      FieldsMaxDepth(fields[1..], childDepth, Max(best, JsonMaxDepth(fields[0].1, childDepth)))
  }

  function ItemsMaxDepth(items: seq<Json>, childDepth: nat, best: nat): nat
    decreases items
  {
    if items == [] then best
    else ItemsMaxDepth(items[1..], childDepth, Max(best, JsonMaxDepth(items[0], childDepth)))
  }

  /** The node list is a pre-order tree whose first node describes the value
      itself. */
  lemma {:induction false} JsonNodesTree(v: Json, path: string, depth: nat, parent: Option<string>)
    ensures PreOrderTree(JsonNodes(v, path, depth, parent), depth)
    ensures JsonNodes(v, path, depth, parent)[0] == JsonNode(v, path, depth, parent)
    decreases v, 2
  {
    var root := JsonNode(v, path, depth, parent);
    var f := ChildNodes(v, path, depth + 1);
    assert JsonNodes(v, path, depth, parent) == [root] + f;
    ChildNodesForest(v, path, depth + 1);
    assert Forest(f, root.path, depth + 1);
    TreeOfRoot(root, f, depth);
  }

  lemma {:induction false} ChildNodesForest(v: Json, path: string, depth: nat)
    ensures Forest(ChildNodes(v, path, depth), path, depth)
    decreases v, 1
  {
    match v {
      case JObj(fields) => FieldNodesForest(fields, path, depth);
      case JArr(items) => ItemNodesForest(items, 0, path, depth);
      case _ => EmptyForest(path, depth);
    }
  }

  lemma {:induction false} FieldNodesForest(fields: seq<(string, Json)>, path: string, depth: nat)
    ensures Forest(FieldNodes(fields, path, depth), path, depth)
    decreases fields, 0
  {
    if fields == [] {
      EmptyForest(path, depth);
    } else {
      assert fields[0].1 < fields[0];
      var head := JsonNodes(fields[0].1, ChildPath(path, fields[0].0), depth, Some(path));
      JsonNodesTree(fields[0].1, ChildPath(path, fields[0].0), depth, Some(path));
      TreeIsForest(head, path, depth);
      FieldNodesForest(fields[1..], path, depth);
      ForestAppend(head, FieldNodes(fields[1..], path, depth), path, depth);
    }
  }

  lemma {:induction false} ItemNodesForest(items: seq<Json>, index: nat, path: string, depth: nat)
    ensures Forest(ItemNodes(items, index, path, depth), path, depth)
    decreases items, 0
  {
    if items == [] {
      EmptyForest(path, depth);
    } else {
      var head := JsonNodes(items[0], ItemPath(path, index), depth, Some(path));
      JsonNodesTree(items[0], ItemPath(path, index), depth, Some(path));
      TreeIsForest(head, path, depth);
      ItemNodesForest(items[1..], index + 1, path, depth);
      ForestAppend(head, ItemNodes(items[1..], index + 1, path, depth), path, depth);
    }
  }

  /** One node per value. */
  lemma {:induction false} JsonNodesCount(v: Json, path: string, depth: nat, parent: Option<string>)
    ensures |JsonNodes(v, path, depth, parent)| == JsonSize(v)
    decreases v, 2
  {
    ChildNodesCount(v, path, depth + 1);
  }

  lemma {:induction false} ChildNodesCount(v: Json, path: string, depth: nat)
    ensures |ChildNodes(v, path, depth)| == JsonSize(v) - 1
    decreases v, 1
  {
    match v {
      case JObj(fields) => FieldNodesCount(fields, path, depth);
      case JArr(items) => ItemNodesCount(items, 0, path, depth);
      case _ =>
    }
  }

  lemma {:induction false} FieldNodesCount(fields: seq<(string, Json)>, path: string, depth: nat)
    ensures |FieldNodes(fields, path, depth)| == FieldsSize(fields)
    decreases fields, 0
  {
    if fields != [] {
      assert fields[0].1 < fields[0];
      JsonNodesCount(fields[0].1, ChildPath(path, fields[0].0), depth, Some(path));
      FieldNodesCount(fields[1..], path, depth);
    }
  }

  lemma {:induction false} ItemNodesCount(items: seq<Json>, index: nat, path: string, depth: nat)
    ensures |ItemNodes(items, index, path, depth)| == ItemsSize(items)
    decreases items, 0
  {
    if items != [] {
      JsonNodesCount(items[0], ItemPath(path, index), depth, Some(path));
      ItemNodesCount(items[1..], index + 1, path, depth);
    }
  }

  /** Every node's `is_leaf` says exactly that its value is no object or array. */
  ghost predicate LeafFlags(ns: seq<DataNode>) {
    forall k :: 0 <= k < |ns| ==> (ns[k].isLeaf <==> !ns[k].dataType.IsContainer())
  }

  lemma {:induction false} JsonNodesLeaves(v: Json, path: string, depth: nat, parent: Option<string>)
    ensures LeafFlags(JsonNodes(v, path, depth, parent))
    decreases v, 2
  {
    var root := JsonNode(v, path, depth, parent);
    var f := ChildNodes(v, path, depth + 1);
    assert JsonNodes(v, path, depth, parent) == [root] + f;
    ChildNodesLeaves(v, path, depth + 1);
    assert LeafFlags([root]);
    LeafFlagsAppend([root], f);
  }

  lemma {:induction false} ChildNodesLeaves(v: Json, path: string, depth: nat)
    ensures LeafFlags(ChildNodes(v, path, depth))
    decreases v, 1
  {
    match v {
      case JObj(fields) => FieldNodesLeaves(fields, path, depth);
      case JArr(items) => ItemNodesLeaves(items, 0, path, depth);
      case _ =>
    }
  }

  lemma {:induction false} FieldNodesLeaves(fields: seq<(string, Json)>, path: string, depth: nat)
    ensures LeafFlags(FieldNodes(fields, path, depth))
    decreases fields, 0
  {
    if fields != [] {
      assert fields[0].1 < fields[0];
      JsonNodesLeaves(fields[0].1, ChildPath(path, fields[0].0), depth, Some(path));
      FieldNodesLeaves(fields[1..], path, depth);
      LeafFlagsAppend(JsonNodes(fields[0].1, ChildPath(path, fields[0].0), depth, Some(path)),
                      FieldNodes(fields[1..], path, depth));
    }
  }

  lemma {:induction false} ItemNodesLeaves(items: seq<Json>, index: nat, path: string, depth: nat)
    ensures LeafFlags(ItemNodes(items, index, path, depth))
    decreases items, 0
  {
    if items != [] {
      JsonNodesLeaves(items[0], ItemPath(path, index), depth, Some(path));
      ItemNodesLeaves(items[1..], index + 1, path, depth);
      LeafFlagsAppend(JsonNodes(items[0], ItemPath(path, index), depth, Some(path)),
                      ItemNodes(items[1..], index + 1, path, depth));
    }
  }

  /** `_calculate_max_depth` is the largest depth in the node list. */
  lemma {:induction false} JsonNodesMaxDepth(v: Json, path: string, depth: nat, parent: Option<string>)
    ensures IsMaxDepth(JsonNodes(v, path, depth, parent), JsonMaxDepth(v, depth))
    decreases v, 2
  {
    var root := JsonNode(v, path, depth, parent);
    var f := ChildNodes(v, path, depth + 1);
    assert JsonNodes(v, path, depth, parent) == [root] + f;
    ChildNodesMaxDepth(v, path, depth);
    assert [root][0].depth == depth;
    assert IsMaxDepth([root], depth);
    RunningMaxAppend([root], f, depth, JsonMaxDepth(v, depth));
  }

  /** The children's lists, with the running maximum started at the
      parent's depth `depth`. */
  lemma {:induction false} ChildNodesMaxDepth(v: Json, path: string, depth: nat)
    ensures RunningMax(ChildNodes(v, path, depth + 1), depth, JsonMaxDepth(v, depth))
    decreases v, 1
  {
    match v {
      case JObj(fields) => FieldNodesMaxDepth(fields, path, depth + 1, depth);
      case JArr(items) => ItemNodesMaxDepth(items, 0, path, depth + 1, depth);
      case _ =>
    }
  }

  /** The running maximum over a list of siblings bounds their nodes' depths
      and is either the starting value or some node's depth. */
  ghost predicate RunningMax(f: seq<DataNode>, best: nat, m: nat) {
    && best <= m && DepthsAtMost(f, m)
    && (m == best || exists k :: 0 <= k < |f| && f[k].depth == m)
  }

  lemma {:induction false} FieldNodesMaxDepth(fields: seq<(string, Json)>, path: string, depth: nat, best: nat)
    ensures RunningMax(FieldNodes(fields, path, depth), best, FieldsMaxDepth(fields, depth, best))
    decreases fields, 0
  {
    if fields != [] {
      assert fields[0].1 < fields[0];
      var (key, v) := fields[0];
      var head := JsonNodes(v, ChildPath(path, key), depth, Some(path));
      var sub := JsonMaxDepth(v, depth);
      JsonNodesMaxDepth(v, ChildPath(path, key), depth, Some(path));
      FieldNodesMaxDepth(fields[1..], path, depth, Max(best, sub));
      RunningMaxStep(head, FieldNodes(fields[1..], path, depth), best, sub, FieldsMaxDepth(fields, depth, best));
    }
  }

  lemma {:induction false} ItemNodesMaxDepth(items: seq<Json>, index: nat, path: string, depth: nat, best: nat)
    ensures RunningMax(ItemNodes(items, index, path, depth), best, ItemsMaxDepth(items, depth, best))
    decreases items, 0
  {
    if items != [] {
      var head := JsonNodes(items[0], ItemPath(path, index), depth, Some(path));
      var sub := JsonMaxDepth(items[0], depth);
      JsonNodesMaxDepth(items[0], ItemPath(path, index), depth, Some(path));
      ItemNodesMaxDepth(items[1..], index + 1, path, depth, Max(best, sub));
      RunningMaxStep(head, ItemNodes(items[1..], index + 1, path, depth), best, sub, ItemsMaxDepth(items, depth, best));
    }
  }

  /** Folding one more sibling tree into the running maximum. */
  lemma RunningMaxStep(head: seq<DataNode>, tail: seq<DataNode>, best: nat, sub: nat, m: nat)
    requires IsMaxDepth(head, sub)
    requires RunningMax(tail, Max(best, sub), m)
    ensures RunningMax(head + tail, best, m)
  {
    DepthsAtMostAppend(head, tail, m);
    if m != best {
      if m == Max(best, sub) {
        var k :| 0 <= k < |head| && head[k].depth == sub;
        assert (head + tail)[k] == head[k];
      } else {
        var k :| 0 <= k < |tail| && tail[k].depth == m;
        assert (head + tail)[k + |head|] == tail[k];
      }
    }
  }

  /** A node followed by its children's lists, with the running maximum
      started at the node's own depth. */
  lemma RunningMaxAppend(root: seq<DataNode>, f: seq<DataNode>, best: nat, m: nat)
    requires IsMaxDepth(root, best)
    requires RunningMax(f, best, m)
    ensures IsMaxDepth(root + f, m)
  {
    DepthsAtMostAppend(root, f, m);
    if m == best {
      var k :| 0 <= k < |root| && root[k].depth == best;
      assert (root + f)[k] == root[k];
    } else {
      var k :| 0 <= k < |f| && f[k].depth == m;
      assert (root + f)[k + |root|] == f[k];
    }
  }

  lemma LeafFlagsAppend(a: seq<DataNode>, b: seq<DataNode>)
    requires LeafFlags(a) && LeafFlags(b)
    ensures LeafFlags(a + b)
  {
    forall k | 0 <= k < |a + b|
      ensures (a + b)[k].isLeaf <==> !(a + b)[k].dataType.IsContainer()
    {
      if k < |a| { assert (a + b)[k] == a[k]; } else { assert (a + b)[k] == b[k - |a|]; }
    }
  }

  // ---- the extraction ----

  /** The `Schema` that `extract` assembles for a parsed document; the file
      name's stem and the modification time are parameters. */
  function ExtractJson(stem: string, createdAt: Option<string>, data: Json): (s: Schema)
    requires WellFormed(data)
    ensures s.name == stem && s.fileType == "json" && s.createdAt == createdAt
    ensures s.root == Some(BuildJson(data, "root"))
    ensures PreOrderTree(s.dataNodes, 0) && s.totalDataNodes == |s.dataNodes| == JsonSize(data)
    ensures s.dataNodes[0].parentPath == None && s.dataNodes[0].path == "root"
    ensures LeafFlags(s.dataNodes)
    ensures IsMaxDepth(s.dataNodes, s.maxDepth)
    ensures s.totalElements == |PropertyNames(s.root.value)|
  {
    var nodes := JsonNodes(data, "root", 0, None);
    JsonNodesTree(data, "root", 0, None);
    JsonNodesCount(data, "root", 0, None);
    JsonNodesLeaves(data, "root", 0, None);
    JsonNodesMaxDepth(data, "root", 0, None);
    CountedNamesAreSchemaNames(data, "root");
    NewSchema(stem, "json", createdAt).(
      root := Some(BuildJson(data, "root")),
      dataNodes := nodes,
      totalDataNodes := |nodes|,
      totalElements := |CountedNames(data)|,
      maxDepth := JsonMaxDepth(data, 0))
  }

  /** `extract_from_string`: the same root schema and statistics as a file
      extraction, under the name "json_schema", with no creation time and
      no data nodes. */
  function ExtractJsonString(data: Json): (s: Schema)
    requires WellFormed(data)
    ensures s.name == "json_schema" && s.fileType == "json" && s.createdAt == None
    ensures s.dataNodes == [] && s.totalDataNodes == 0
    ensures s == ExtractJson("json_schema", None, data).(dataNodes := [], totalDataNodes := 0)
  {
    NewSchema("json_schema", "json", None).(
      root := Some(BuildJson(data, "root")),
      totalElements := |CountedNames(data)|,
      maxDepth := JsonMaxDepth(data, 0))
  }
}
