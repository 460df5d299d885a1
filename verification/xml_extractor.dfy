/** `XMLExtractor` of `schema_extractor/extractors/xml_extractor.py` over an
    already-parsed element tree: the element-kind rule, the schema tree with
    repeated tags grouped into arrays, the data-node list and the depth and
    name statistics. */
module XmlExtractor {
  import opened Wrappers
  import opened Text
  import opened Assoc
  import opened Model
  import opened Patterns
  import opened DataNodes

  /** An element as lxml presents it: its tag, its attributes in document
      order, `.text` (the text before the first child; None when absent) and
      its child elements. */
  datatype XmlElem = XmlElem(tag: string, attrs: seq<(string, string)>, text: Option<string>, children: seq<XmlElem>)

  /** `element.text and element.text.strip()` */
  predicate HasText(e: XmlElem) {
    e.text.Some? && Strip(e.text.value) != []
  }

  function TextContent(e: XmlElem): string
    requires HasText(e)
  {
    Strip(e.text.value)
  }

  /** `_determine_element_type` */
  function ElementKind(e: XmlElem): (t: DataType)
    ensures t == Object || t == String
  {
    if |e.children| > 0 then Object
    else if HasText(e) then String
    else if |e.attrs| > 0 then Object
    else String
  }

  /** The rule spelled out: OBJECT exactly for an element with children, or
      with attributes and blank text. */
  lemma ElementKindRule(e: XmlElem)
    ensures ElementKind(e) == Object <==> |e.children| > 0 || (|e.attrs| > 0 && !HasText(e))
    ensures |e.children| == 0 && HasText(e) ==> ElementKind(e) == String
  {
  }

  // ---- grouping children by tag ----

  /** Every member of a group is a child carrying the group's tag. */
  predicate Grouped(g: (string, seq<XmlElem>), cs: seq<XmlElem>) {
    |g.1| > 0 && forall c :: c in g.1 ==> c in cs && c.tag == g.0
  }

  /** `child_elements[child.tag].append(child)` over all children. */
  function GroupChildren(cs: seq<XmlElem>): (gs: seq<(string, seq<XmlElem>)>)
    ensures forall i :: 0 <= i < |gs| ==> Grouped(gs[i], cs)
    decreases |cs|
  {
    if cs == [] then []
    else
      var prev := GroupChildren(cs[..|cs| - 1]);
      var last := cs[|cs| - 1];
      var g := Get(prev, last.tag).GetOr([]) + [last];
      var r := Put(prev, last.tag, g);
      GroupStep(cs, prev, g, r);
      r
  }

  lemma GroupStep(cs: seq<XmlElem>, prev: seq<(string, seq<XmlElem>)>, g: seq<XmlElem>, r: seq<(string, seq<XmlElem>)>)
    requires cs != []
    requires forall i :: 0 <= i < |prev| ==> Grouped(prev[i], cs[..|cs| - 1])
    requires g == Get(prev, cs[|cs| - 1].tag).GetOr([]) + [cs[|cs| - 1]]
    requires r == Put(prev, cs[|cs| - 1].tag, g)
    ensures forall i :: 0 <= i < |r| ==> Grouped(r[i], cs)
  {
    var last := cs[|cs| - 1];
    PutFrom(prev, last.tag, g);
    assert forall c :: c in cs[..|cs| - 1] ==> c in cs;
    if Get(prev, last.tag).Some? {
      GetFound(prev, last.tag);
    }
    forall i | 0 <= i < |r|
      ensures Grouped(r[i], cs)
    {
      if r[i] != (last.tag, g) {
        var j :| 0 <= j < |prev| && prev[j] == r[i];
      }
    }
  }

  /** The children with tag `t`, in document order. */
  function WithTag(cs: seq<XmlElem>, t: string): (ws: seq<XmlElem>)
    ensures forall c :: c in ws ==> c in cs && c.tag == t
    decreases |cs|
  {
    if cs == [] then []
    else
      var last := cs[|cs| - 1];
      var prev := WithTag(cs[..|cs| - 1], t);
      assert forall c :: c in cs[..|cs| - 1] ==> c in cs;
      if last.tag == t then prev + [last] else prev
  }

  /** The children's tags, in document order. */
  function Tags(cs: seq<XmlElem>): (ts: seq<string>)
    ensures |ts| == |cs| && forall i :: 0 <= i < |cs| ==> ts[i] == cs[i].tag
  {
    seq(|cs|, i requires 0 <= i < |cs| => cs[i].tag)
  }

  /** The group of a tag is the list of children with that tag, in order, and
      a tag has a group exactly when some child carries it; tags are
      grouped once each. */
  lemma {:induction false} GroupChildrenByTag(cs: seq<XmlElem>, t: string)
    ensures Get(GroupChildren(cs), t) == if WithTag(cs, t) == [] then None else Some(WithTag(cs, t))
    ensures UniqueKeys(GroupChildren(cs))
    decreases |cs|
  {
    if cs != [] {
      var prev := GroupChildren(cs[..|cs| - 1]);
      var last := cs[|cs| - 1];
      var g := Get(prev, last.tag).GetOr([]) + [last];
      GroupChildrenByTag(cs[..|cs| - 1], t);
      GroupChildrenByTag(cs[..|cs| - 1], last.tag);
      GetPut(prev, last.tag, g, t);
      PutUnique(prev, last.tag, g);
    }
  }

  /** The groups follow the order in which their tags first appear. */
  lemma {:induction false} GroupChildrenOrder(cs: seq<XmlElem>)
    ensures Keys(GroupChildren(cs)) == AddKeys([], Tags(cs))
    decreases |cs|
  {
    if cs != [] {
      var init := cs[..|cs| - 1];
      var prev := GroupChildren(init);
      var last := cs[|cs| - 1];
      GroupChildrenOrder(init);
      assert Tags(cs) == Tags(init) + [last.tag];
      AddKeysSnoc([], Tags(init), last.tag);
      assert GroupChildren(cs) == Put(prev, last.tag, Get(prev, last.tag).GetOr([]) + [last]);
    }
  }

  // ---- the schema tree ----

  /** The `SchemaAttribute` of one attribute. */
  function AttributeSchema(name: string, value: string): Attribute {
    Attribute(name, ClassifyText(value), true, if value != "" then Some(value) else None, None)
  }

  function AttributeSchemas(attrs: seq<(string, string)>): (r: seq<(string, Attribute)>)
    ensures |r| == |attrs|
    ensures forall i :: 0 <= i < |attrs| ==> r[i] == (attrs[i].0, AttributeSchema(attrs[i].0, attrs[i].1))
  {
    seq(|attrs|, i requires 0 <= i < |attrs| => (attrs[i].0, AttributeSchema(attrs[i].0, attrs[i].1)))
  }

  /** The property a tag group becomes: the first occurrence's schema when it
      occurs once, else an ARRAY element of that schema with the count. */
  function GroupSchema(tag: string, count: nat, first: Element): Element {
    if count == 1 then first
    else NewElement(tag, Array, None).(arrayType := Some(first), occurrences := count)
  }

  /** The `properties["text"]` entry: non-blank text that classifies as
      something other than STRING. */
  function TextProperty(e: XmlElem): Option<Element> {
    if HasText(e) && ClassifyText(TextContent(e)) != String then
      Some(NewElement("text", ClassifyText(TextContent(e)), None).(examples := [JStr(TextContent(e))]))
    else None
  }

  /** `_extract_element_schema(element)` */
  function BuildXml(e: XmlElem): (s: Element)
    ensures s.name == e.tag && s.dataType == ElementKind(e)
    ensures s.description == Some("Element: " + e.tag)
    ensures !s.required && s.arrayType == None && s.occurrences == 1 && s.examples == []
    ensures Unconstrained(s)
    decreases e, 1
  {
    var kind := ElementKind(e);
    var props :=
      if kind == Object then PutAll([], GroupSchemas(e, GroupChildren(e.children))) else [];
    var props' := match TextProperty(e)
                  case Some(tp) => Put(props, "text", tp)
                  case None => props;
    NewElement(e.tag, kind, Some("Element: " + e.tag)).(
      attributes := PutAll([], AttributeSchemas(e.attrs)),
      properties := props')
  }

  /** The loop over `child_elements.items()`, one property per group. */
  function GroupSchemas(e: XmlElem, gs: seq<(string, seq<XmlElem>)>): (r: seq<(string, Element)>)
    requires forall i :: 0 <= i < |gs| ==> Grouped(gs[i], e.children)
    ensures Keys(r) == Keys(gs)
    decreases e, 0, |gs|
  {
    if gs == [] then []
    else
      var g := gs[0];
      assert Grouped(g, e.children);
      var first := g.1[0];
      assert first in g.1;
      var rest := GroupSchemas(e, gs[1..]);
      var r := [(g.0, GroupSchema(g.0, |g.1|, BuildXml(first)))] + rest;
      KeysCons(gs);
      KeysCons(r);
      assert r[1..] == rest;
      r
  }

  lemma {:induction false} GroupSchemasGet(e: XmlElem, gs: seq<(string, seq<XmlElem>)>, t: string)
    requires forall i :: 0 <= i < |gs| ==> Grouped(gs[i], e.children)
    ensures Get(GroupSchemas(e, gs), t) ==
      match Get(gs, t)
      case None => None
      case Some(cs) => if cs == [] then None else Some(GroupSchema(t, |cs|, BuildXml(cs[0])))
    decreases |gs|
  {
    if gs != [] {
      GroupSchemasGet(e, gs[1..], t);
    }
  }

  /** The attributes are the element's attributes in order, each required,
      typed by the value classifier and defaulting to its value when that
      is non-empty, whatever the element's kind. */
  lemma XmlAttributes(e: XmlElem)
    requires UniqueKeys(e.attrs)
    ensures BuildXml(e).attributes == AttributeSchemas(e.attrs)
  {
    var a := AttributeSchemas(e.attrs);
    assert UniqueKeys(a) by {
      forall i, j | 0 <= i < j < |a|
        ensures a[i].0 != a[j].0
      {
        assert a[i].0 == e.attrs[i].0 && a[j].0 == e.attrs[j].0;
      }
    }
    PutAllFresh([], a);
  }

  /** For an OBJECT element, the grouped children's properties: a tag reads
      as the schema of the children carrying it. */
  lemma ChildProperties(e: XmlElem, t: string)
    ensures var gs := GroupChildren(e.children);
      Get(PutAll([], GroupSchemas(e, gs)), t) ==
        if WithTag(e.children, t) == [] then None
        else Some(GroupSchema(t, |WithTag(e.children, t)|, BuildXml(WithTag(e.children, t)[0])))
  {
    var gs := GroupChildren(e.children);
    GroupChildrenByTag(e.children, t);
    var r := GroupSchemas(e, gs);
    SameKeysUnique(r, gs);
    PutAllFresh([], r);
    assert PutAll([], r) == r;
    GroupSchemasGet(e, gs, t);
  }

  /** The property keys in order: for an OBJECT element the children's tags
      in the order of their first appearance, then "text" when there is a
      text property and no child is named "text" (one that is keeps its
      place); a STRING element has at most the "text" key. */
  lemma XmlPropertyOrder(e: XmlElem)
    ensures var ks := if ElementKind(e) == Object then AddKeys([], Tags(e.children)) else [];
      Keys(BuildXml(e).properties) == if TextProperty(e).Some? && "text" !in ks then ks + ["text"] else ks
    ensures UniqueKeys(BuildXml(e).properties)
  {
    var gs := GroupChildren(e.children);
    var r := GroupSchemas(e, gs);
    GroupChildrenByTag(e.children, "text");
    GroupChildrenOrder(e.children);
    SameKeysUnique(r, gs);
    PutAllFresh([], r);
    assert PutAll([], r) == r;
    var props := if ElementKind(e) == Object then PutAll([], r) else [];
    assert Keys(props) == if ElementKind(e) == Object then AddKeys([], Tags(e.children)) else [];
    assert UniqueKeys(props);
    match TextProperty(e) {
      case Some(tp) =>
        PutUnique(props, "text", tp);
        assert BuildXml(e).properties == Put(props, "text", tp);
      case None =>
        assert BuildXml(e).properties == props;
    }
  }

  /** A property key reads as: the text property under "text" when there is
      one (it replaces a child named "text"); otherwise, for an OBJECT
      element, the schema of the children with that tag, grouped; nothing
      for a STRING element. */
  lemma XmlProperties(e: XmlElem, t: string)
    ensures Get(BuildXml(e).properties, t) ==
      if t == "text" && TextProperty(e).Some? then TextProperty(e)
      else if ElementKind(e) == Object && WithTag(e.children, t) != [] then
        Some(GroupSchema(t, |WithTag(e.children, t)|, BuildXml(WithTag(e.children, t)[0])))
      else None
  {
    var props := if ElementKind(e) == Object then PutAll([], GroupSchemas(e, GroupChildren(e.children))) else [];
    ChildProperties(e, t);
    if TextProperty(e).Some? {
      GetPut(props, "text", TextProperty(e).value, t);
    }
  }

  // ---- data nodes ----

  /** The node of an element itself. */
  function ElementNode(e: XmlElem, path: string, depth: nat, parent: Option<string>): DataNode {
    DataNode(path, e.tag, if HasText(e) then JStr(TextContent(e)) else JNull, ElementKind(e), depth, parent,
             |e.children| == 0 && !HasText(e), "XML element: " + e.tag)
  }

  function AttributeNode(a: (string, string), path: string, depth: nat): DataNode {
    DataNode(path + "@" + a.0, a.0, JStr(a.1), ClassifyText(a.1), depth, Some(path), true, "Attribute: " + a.0)
  }

  function AttributeNodes(attrs: seq<(string, string)>, path: string, depth: nat): (ns: seq<DataNode>)
    ensures |ns| == |attrs|
    ensures forall i :: 0 <= i < |attrs| ==> ns[i] == AttributeNode(attrs[i], path, depth)
  {
    seq(|attrs|, i requires 0 <= i < |attrs| => AttributeNode(attrs[i], path, depth))
  }

  /** The `path#text` node, present for non-blank text. */
  function TextNodes(e: XmlElem, path: string, depth: nat): (ns: seq<DataNode>)
    ensures |ns| == if HasText(e) then 1 else 0
  {
    if HasText(e) then
      [DataNode(path + "#text", "text", JStr(TextContent(e)), ClassifyText(TextContent(e)), depth, Some(path), true,
                "Text content of " + e.tag)]
    else []
  }

  /** `_extract_data_nodes(element, path, depth, parent_path)` */
  function XmlNodes(e: XmlElem, path: string, depth: nat, parent: Option<string>): seq<DataNode>
    decreases e, 1
  {
    [ElementNode(e, path, depth, parent)] + LeafNodes(e, path, depth + 1) + ChildrenNodes(e.children, path, depth + 1)
  }

  /** The attribute nodes followed by the text node. */
  function LeafNodes(e: XmlElem, path: string, depth: nat): seq<DataNode> {
    AttributeNodes(e.attrs, path, depth) + TextNodes(e, path, depth)
  }

  /** Every child's list, at `path.tag`, in document order. */
  function ChildrenNodes(cs: seq<XmlElem>, path: string, depth: nat): seq<DataNode>
    decreases cs, 2
  {
    if cs == [] then []
    else XmlNodes(cs[0], path + "." + cs[0].tag, depth, Some(path)) + ChildrenNodes(cs[1..], path, depth)
  }

  /** Number of nodes: each element, each attribute and each non-blank text. */
  function XmlSize(e: XmlElem): nat
    decreases e, 1
  {
    1 + |e.attrs| + (if HasText(e) then 1 else 0) + ChildrenSize(e.children)
  }

  function ChildrenSize(cs: seq<XmlElem>): nat
    decreases cs, 2
  {
    if cs == [] then 0 else XmlSize(cs[0]) + ChildrenSize(cs[1..])
  }

  function Max(a: nat, b: nat): nat {
    if a >= b then a else b
  }

  /** `_calculate_max_depth(element, current_depth)` */
  function XmlMaxDepth(e: XmlElem, current: nat): nat
    decreases e, 1
  {
    ChildrenMaxDepth(e.children, current + 1, current)
  }

  function ChildrenMaxDepth(cs: seq<XmlElem>, childDepth: nat, best: nat): nat
    decreases cs, 2
  {
    if cs == [] then best
    else ChildrenMaxDepth(cs[1..], childDepth, Max(best, XmlMaxDepth(cs[0], childDepth)))
  }

  /** Attribute and text nodes sit directly under the element's path. */
  lemma LeafNodesUnder(e: XmlElem, path: string, depth: nat)
    ensures forall k :: 0 <= k < |LeafNodes(e, path, depth)| ==>
      && LeafNodes(e, path, depth)[k].depth == depth
      && LeafNodes(e, path, depth)[k].parentPath == Some(path)
      && LeafNodes(e, path, depth)[k].isLeaf
  {
    var a, t := AttributeNodes(e.attrs, path, depth), TextNodes(e, path, depth);
    var ns: seq<DataNode> := a + t;
    forall k | 0 <= k < |ns|
      ensures ns[k].depth == depth && ns[k].parentPath == Some(path) && ns[k].isLeaf
    {
      if k < |a| { assert ns[k] == a[k]; } else { assert ns[k] == t[k - |a|]; }
    }
  }

  /** The node list is a pre-order tree whose first node is the element's. */
  lemma {:induction false} XmlNodesTree(e: XmlElem, path: string, depth: nat, parent: Option<string>)
    ensures PreOrderTree(XmlNodes(e, path, depth, parent), depth)
    ensures XmlNodes(e, path, depth, parent)[0] == ElementNode(e, path, depth, parent)
    decreases e, 2
  {
    var root := ElementNode(e, path, depth, parent);
    var leaves := LeafNodes(e, path, depth + 1);
    var kids := ChildrenNodes(e.children, path, depth + 1);
    assert Forest(kids, path, depth + 1) by {
      ChildrenNodesForest(e.children, path, depth + 1);
    }
    assert Forest(leaves, path, depth + 1) by {
      LeafNodesUnder(e, path, depth + 1);
      LeavesForest(leaves, path, depth + 1);
    }
    ForestAppend(leaves, kids, path, depth + 1);
    assert root.depth == depth && root.path == path;
    TreeOfRoot(root, leaves + kids, depth);
    XmlNodesSplit(e, path, depth, parent);
  }

  lemma {:induction false} ChildrenNodesForest(cs: seq<XmlElem>, path: string, depth: nat)
    ensures Forest(ChildrenNodes(cs, path, depth), path, depth)
    decreases cs, 0
  {
    if cs == [] {
      EmptyForest(path, depth);
    } else {
      var head := XmlNodes(cs[0], path + "." + cs[0].tag, depth, Some(path));
      XmlNodesTree(cs[0], path + "." + cs[0].tag, depth, Some(path));
      TreeIsForest(head, path, depth);
      ChildrenNodesForest(cs[1..], path, depth);
      ForestAppend(head, ChildrenNodes(cs[1..], path, depth), path, depth);
    }
  }

  /** One node per element, attribute and non-blank text. */
  lemma {:induction false} XmlNodesCount(e: XmlElem, path: string, depth: nat, parent: Option<string>)
    ensures |XmlNodes(e, path, depth, parent)| == XmlSize(e)
    decreases e, 2
  {
    ChildrenNodesCount(e.children, path, depth + 1);
  }

  lemma {:induction false} ChildrenNodesCount(cs: seq<XmlElem>, path: string, depth: nat)
    ensures |ChildrenNodes(cs, path, depth)| == ChildrenSize(cs)
    decreases cs, 0
  {
    if cs != [] {
      XmlNodesCount(cs[0], path + "." + cs[0].tag, depth, Some(path));
      ChildrenNodesCount(cs[1..], path, depth);
    }
  }

  /** `_calculate_max_depth` counts element nesting only: some node lies at
      that depth and none lies more than one level deeper (an attribute or
      text node below a deepest element). */
  lemma {:induction false} XmlNodesDepth(e: XmlElem, path: string, depth: nat, parent: Option<string>)
    ensures var ns := XmlNodes(e, path, depth, parent);
      DepthsAtMost(ns, XmlMaxDepth(e, depth) + 1) && HasDepth(ns, XmlMaxDepth(e, depth))
    decreases e, 2
  {
    ChildrenNodesDepth(e.children, path, depth + 1, depth);
    ElementDepths(e, path, depth, parent, XmlMaxDepth(e, depth));
  }

  /** The element's own node and its leaves wrapped around the children's
      nodes, whose depths are already known. */
  lemma ElementDepths(e: XmlElem, path: string, depth: nat, parent: Option<string>, m: nat)
    requires var kids := ChildrenNodes(e.children, path, depth + 1);
      depth <= m && DepthsAtMost(kids, m + 1) && (m == depth || HasDepth(kids, m))
    ensures var ns := XmlNodes(e, path, depth, parent);
      DepthsAtMost(ns, m + 1) && HasDepth(ns, m)
  {
    var root := ElementNode(e, path, depth, parent);
    var leaves := LeafNodes(e, path, depth + 1);
    var kids := ChildrenNodes(e.children, path, depth + 1);
    LeafNodesAt(e, path, depth + 1);
    DepthsCombine(root, leaves, kids, depth, m);
    XmlNodesSplit(e, path, depth, parent);
  }

  lemma XmlNodesSplit(e: XmlElem, path: string, depth: nat, parent: Option<string>)
    ensures XmlNodes(e, path, depth, parent)
      == [ElementNode(e, path, depth, parent)] + (LeafNodes(e, path, depth + 1) + ChildrenNodes(e.children, path, depth + 1))
  {
  }

  /** Every node in the list lies at depth `d`. */
  ghost predicate AllAt(ns: seq<DataNode>, d: nat) {
    forall k :: 0 <= k < |ns| ==> ns[k].depth == d
  }

  lemma LeafNodesAt(e: XmlElem, path: string, depth: nat)
    ensures AllAt(LeafNodes(e, path, depth), depth)
  {
    LeafNodesUnder(e, path, depth);
  }

  /** Some node lies at depth `m`. */
  ghost predicate HasDepth(ns: seq<DataNode>, m: nat) {
    exists k :: 0 <= k < |ns| && ns[k].depth == m
  }

  lemma DepthsCombine(root: DataNode, leaves: seq<DataNode>, kids: seq<DataNode>, d: nat, m: nat)
    requires root.depth == d
    requires AllAt(leaves, d + 1)
    requires d <= m && DepthsAtMost(kids, m + 1)
    requires m == d || HasDepth(kids, m)
    ensures DepthsAtMost([root] + (leaves + kids), m + 1)
    ensures HasDepth([root] + (leaves + kids), m)
  {
    var ns := [root] + (leaves + kids);
    forall k | 0 <= k < |ns|
      ensures ns[k].depth <= m + 1
    {
      if k == 0 {
      } else if k - 1 < |leaves| {
        assert ns[k] == leaves[k - 1];
      } else {
        assert ns[k] == kids[k - 1 - |leaves|];
      }
    }
    if m == d {
      assert ns[0].depth == m;
    } else {
      var k :| 0 <= k < |kids| && kids[k].depth == m;
      assert ns[1 + |leaves| + k] == kids[k];
    }
  }

  /** Over a list of siblings: every node is at most one below the running
      maximum, which is the starting value or some node's depth. */
  lemma {:induction false} ChildrenNodesDepth(cs: seq<XmlElem>, path: string, depth: nat, best: nat)
    ensures var f := ChildrenNodes(cs, path, depth);
      var m := ChildrenMaxDepth(cs, depth, best);
      && best <= m && DepthsAtMost(f, m + 1)
      && (m == best || HasDepth(f, m))
    decreases cs, 0
  {
    if cs != [] {
      var head := XmlNodes(cs[0], path + "." + cs[0].tag, depth, Some(path));
      var tail := ChildrenNodes(cs[1..], path, depth);
      var sub := XmlMaxDepth(cs[0], depth);
      var m := ChildrenMaxDepth(cs, depth, best);
      XmlNodesDepth(cs[0], path + "." + cs[0].tag, depth, Some(path));
      ChildrenNodesDepth(cs[1..], path, depth, Max(best, sub));
      assert ChildrenNodes(cs, path, depth) == head + tail;
      DepthsAtMostAppend(head, tail, m + 1);
      if m != best {
        if m == Max(best, sub) {
          var k :| 0 <= k < |head| && head[k].depth == sub;
          assert (head + tail)[k] == head[k];
        } else {
          var k :| 0 <= k < |tail| && tail[k].depth == m;
          assert (head + tail)[k + |head|] == tail[k];
        }
        assert HasDepth(head + tail, m);
      }
    }
  }

  // ---- name statistics ----

  /** The tags `_extract_element_schema` counts: the element's own, and those
      of the first child of every tag group (later occurrences are never
      visited). */
  function CountedTags(e: XmlElem): set<string>
    decreases e, 1
  {
    {e.tag} + FirstOfGroupTags(e, GroupChildren(e.children))
  }

  function FirstOfGroupTags(e: XmlElem, gs: seq<(string, seq<XmlElem>)>): set<string>
    requires forall i :: 0 <= i < |gs| ==> Grouped(gs[i], e.children)
    decreases e, 0, |gs|
  {
    if gs == [] then {}
    else
      assert Grouped(gs[0], e.children);
      assert gs[0].1[0] in gs[0].1;
      CountedTags(gs[0].1[0]) + FirstOfGroupTags(e, gs[1..])
  }

  /** The attribute names counted alongside. */
  function CountedAttributes(e: XmlElem): set<string>
    decreases e, 1
  {
    (set k | k in Keys(e.attrs)) + FirstOfGroupAttributes(e, GroupChildren(e.children))
  }

  function FirstOfGroupAttributes(e: XmlElem, gs: seq<(string, seq<XmlElem>)>): set<string>
    requires forall i :: 0 <= i < |gs| ==> Grouped(gs[i], e.children)
    decreases e, 0, |gs|
  {
    if gs == [] then {}
    else
      assert Grouped(gs[0], e.children);
      assert gs[0].1[0] in gs[0].1;
      CountedAttributes(gs[0].1[0]) + FirstOfGroupAttributes(e, gs[1..])
  }

  /** Every tag in the tree. */
  function AllTags(e: XmlElem): set<string>
    decreases e, 1
  {
    {e.tag} + ChildrenTags(e.children)
  }

  function ChildrenTags(cs: seq<XmlElem>): set<string>
    decreases cs, 2
  {
    if cs == [] then {} else AllTags(cs[0]) + ChildrenTags(cs[1..])
  }

  lemma {:induction false} ChildTagsContain(cs: seq<XmlElem>, c: XmlElem)
    requires c in cs
    ensures AllTags(c) <= ChildrenTags(cs)
    decreases cs
  {
    if cs[0] != c {
      ChildTagsContain(cs[1..], c);
    }
  }

  /** `total_elements` counts a subset of the document's tags: never a tag
      that does not occur, always the root's. */
  lemma {:induction false} CountedTagsOccur(e: XmlElem)
    ensures e.tag in CountedTags(e) && CountedTags(e) <= AllTags(e)
    decreases e, 1
  {
    FirstOfGroupTagsOccur(e, GroupChildren(e.children));
  }

  lemma {:induction false} FirstOfGroupTagsOccur(e: XmlElem, gs: seq<(string, seq<XmlElem>)>)
    requires forall i :: 0 <= i < |gs| ==> Grouped(gs[i], e.children)
    ensures FirstOfGroupTags(e, gs) <= ChildrenTags(e.children)
    decreases e, 0, |gs|
  {
    if gs != [] {
      assert Grouped(gs[0], e.children);
      var c := gs[0].1[0];
      assert c in gs[0].1;
      CountedTagsOccur(c);
      ChildTagsContain(e.children, c);
      FirstOfGroupTagsOccur(e, gs[1..]);
    }
  }

  /** A repeated tag's later occurrences are not visited, so their own
      descendants' tags go uncounted. */
  lemma CountedTagsSkipLaterOccurrences()
    ensures var b := XmlElem("b", [], None, []);
      var r := XmlElem("r", [], None, [XmlElem("a", [], None, []), XmlElem("a", [], None, [b])]);
      "b" in AllTags(r) && "b" !in CountedTags(r)
  {
    var b := XmlElem("b", [], None, []);
    var a1, a2 := XmlElem("a", [], None, []), XmlElem("a", [], None, [b]);
    var r := XmlElem("r", [], None, [a1, a2]);
    assert GroupChildren([a1]) == [("a", [a1])] by {
      var cs := [a1];
      assert cs[..0] == [];
      var empty: seq<(string, seq<XmlElem>)> := [];
      assert GroupChildren(cs[..0]) == empty;
      assert Get(empty, "a") == None;
      assert Get(empty, "a").GetOr([]) + [a1] == [a1];
      assert Put(empty, "a", [a1]) == [("a", [a1])];
    }
    assert GroupChildren(r.children) == [("a", [a1, a2])] by {
      var cs := r.children;
      assert cs[..1] == [a1];
      var prev := [("a", [a1])];
      assert GroupChildren(cs[..1]) == prev;
      assert cs[1] == a2;
      assert Get(prev, "a") == Some([a1]);
      assert Get(prev, "a").GetOr([]) + [a2] == [a1, a2];
      assert Put(prev, "a", [a1, a2]) == [("a", [a1, a2])] by {
        assert prev[1..] == [];
      }
    }
    assert GroupChildren(a1.children) == [];
    assert CountedTags(a1) == {"a"};
    assert FirstOfGroupTags(r, [("a", [a1, a2])]) == CountedTags(a1);
    assert ChildrenTags(a2.children) == AllTags(b);
    assert ChildrenTags(r.children) == AllTags(a1) + AllTags(a2) + ChildrenTags([]) by {
      assert r.children[1..] == [a2];
      assert r.children[1..][1..] == [];
    }
  }

  // ---- the extraction ----

  /** The `Schema` that `extract` assembles for a parsed document; the file
      name's stem and the modification time are parameters. */
  function ExtractXml(stem: string, createdAt: Option<string>, root: XmlElem): (s: Schema)
    ensures s.name == stem && s.fileType == "xml" && s.createdAt == createdAt
    ensures s.root == Some(BuildXml(root))
    ensures PreOrderTree(s.dataNodes, 0) && s.totalDataNodes == |s.dataNodes| == XmlSize(root)
    ensures s.dataNodes[0].path == root.tag && s.dataNodes[0].parentPath == None
    ensures DepthsAtMost(s.dataNodes, s.maxDepth + 1)
    ensures exists k :: 0 <= k < |s.dataNodes| && s.dataNodes[k].depth == s.maxDepth
    ensures root.tag in CountedTags(root) && s.totalElements == |CountedTags(root)|
    ensures s.totalAttributes == |CountedAttributes(root)|
  {
    var nodes := XmlNodes(root, root.tag, 0, None);
    XmlNodesTree(root, root.tag, 0, None);
    XmlNodesCount(root, root.tag, 0, None);
    XmlNodesDepth(root, root.tag, 0, None);
    CountedTagsOccur(root);
    NewSchema(stem, "xml", createdAt).(
      root := Some(BuildXml(root)),
      dataNodes := nodes,
      totalDataNodes := |nodes|,
      totalElements := |CountedTags(root)|,
      totalAttributes := |CountedAttributes(root)|,
      maxDepth := XmlMaxDepth(root, 0))
  }

  /** `extract_from_string`: the same root schema and statistics as a file
      extraction, under the name "xml_schema", with no creation time and no
      data nodes. */
  function ExtractXmlString(root: XmlElem): (s: Schema)
    ensures s.name == "xml_schema" && s.fileType == "xml" && s.createdAt == None
    ensures s.dataNodes == [] && s.totalDataNodes == 0
    ensures s == ExtractXml("xml_schema", None, root).(dataNodes := [], totalDataNodes := 0)
  {
    NewSchema("xml_schema", "xml", None).(
      root := Some(BuildXml(root)),
      totalElements := |CountedTags(root)|,
      totalAttributes := |CountedAttributes(root)|,
      maxDepth := XmlMaxDepth(root, 0))
  }
}
