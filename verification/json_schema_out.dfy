/** `Schema.to_json_schema`: a schema element rendered as a JSON Schema
    document, kept as a `Json` object whose fields are in the order the source
    inserts them into its dict. */
module JsonSchemaOut {
  import opened Wrappers
  import opened Assoc
  import opened Model
  import JsonExtractor
  import XmlExtractor

  /** The seven type names of JSON Schema. */
  predicate IsSchemaType(n: string) {
    n in {"string", "integer", "number", "boolean", "object", "array", "null"}
  }

  /** `type_mapping`: FLOAT becomes "number", the date kinds and UNKNOWN fall
      back to "string", every other tag keeps its own name. */
  function TypeName(t: DataType): (n: string)
    ensures IsSchemaType(n)
    ensures t == Float <==> n == "number"
    ensures n == t.Value() <==> t !in {Float, Date, DateTime, Unknown}
  {
    match t
    case Float => "number"
    case Date => "string"
    case DateTime => "string"
    case Unknown => "string"
    case _ => t.Value()
  }

  /** Reads a JSON Schema type name back as the data type it stands for. */
  function TypeOfName(n: string): (t: Option<DataType>)
    ensures t.Some? <==> IsSchemaType(n)
  {
    match n
    case "string" => Some(String)
    case "integer" => Some(Integer)
    case "number" => Some(Float)
    case "boolean" => Some(Boolean)
    case "object" => Some(Object)
    case "array" => Some(Array)
    case "null" => Some(Null)
    case _ => None
  }

  /** The type name loses only the distinction between STRING and the
      date kinds and UNKNOWN: every other tag is read back unchanged. */
  lemma TypeNameRoundTrip(t: DataType)
    ensures TypeOfName(TypeName(t)) == if t in {Date, DateTime, Unknown} then Some(String) else Some(t)
  {
  }

  function DescriptionJson(d: Option<string>): (j: Json)
    ensures j == JNull <==> d == None
    ensures d.Some? ==> j == JStr(d.value)
  {
    match d
    case Some(s) => JStr(s)
    case None => JNull
  }

  function NumberJson(n: Number): Json {
    match n
    case IntNumber(i) => JInt(i)
    case FloatNumber(r) => JFloat(r)
  }

  /** The constraint keywords of a document. */
  const ConstraintNames: set<string> := {"minimum", "maximum", "minLength", "maxLength", "pattern"}

  /** The tags whose numeric and string constraints are written out. */
  predicate Constrained(t: DataType) {
    t in {String, Integer, Float}
  }

  /** `_element_to_json_schema(element)` */
  function ElementSchema(e: Element): (r: Json)
    ensures r.JObj? && |r.fields| >= 2
    ensures r.fields[0] == ("type", JStr(TypeName(e.dataType)))
    ensures r.fields[1] == ("description", DescriptionJson(e.description))
    decreases e, 2
  {
    JObj([("type", JStr(TypeName(e.dataType))), ("description", DescriptionJson(e.description))]
         + Constraints(e))
  }

  /** The entries after "type" and "description", by the element's tag. */
  function Constraints(e: Element): seq<(string, Json)>
    decreases e, 1
  {
    match e.dataType
    case Object =>
      if e.properties == [] then []
      else
        var req := RequiredNames(e.properties);
        [("properties", JObj(PropertySchemas(e.properties)))]
        + (if req == [] then [] else [("required", JArr(req))])
    case Array =>
      (match e.arrayType
       case Some(a) => [("items", ElementSchema(a))]
       case None => [])
    case _ =>
      if Constrained(e.dataType) then Bounds(e) else []
  }

  /** The comprehension over `element.properties.items()`. */
  function PropertySchemas(ps: seq<(string, Element)>): (r: seq<(string, Json)>)
    ensures Keys(r) == Keys(ps)
    decreases ps, 3
  {
    if ps == [] then []
    else
      assert ps[0].1 < ps[0];
      var rest := PropertySchemas(ps[1..]);
      var r := [(ps[0].0, ElementSchema(ps[0].1))] + rest;
      KeysCons(r);
      assert r[1..] == rest;
      KeysCons(ps);
      r
  }

  /** `required_props`: the names of the required properties, in order. */
  function RequiredNames(ps: seq<(string, Element)>): (r: seq<Json>)
    ensures forall j :: j in r ==> j.JStr?
    ensures |r| <= |ps|
  {
    if ps == [] then []
    else
      var rest := RequiredNames(ps[1..]);
      if ps[0].1.required then [JStr(ps[0].0)] + rest else rest
  }

  /** A name is listed exactly when a property of that name is required. */
  lemma {:induction false} RequiredNamesMembers(ps: seq<(string, Element)>, k: string)
    ensures JStr(k) in RequiredNames(ps) <==> exists i :: 0 <= i < |ps| && ps[i].0 == k && ps[i].1.required
    decreases ps
  {
    if ps != [] {
      RequiredNamesMembers(ps[1..], k);
      if exists i :: 1 <= i < |ps| && ps[i].0 == k && ps[i].1.required {
        var i :| 1 <= i < |ps| && ps[i].0 == k && ps[i].1.required;
        assert ps[1..][i - 1] == ps[i];
      }
      if exists i :: 0 <= i < |ps[1..]| && ps[1..][i].0 == k && ps[1..][i].1.required {
        var i :| 0 <= i < |ps[1..]| && ps[1..][i].0 == k && ps[1..][i].1.required;
        assert ps[i + 1] == ps[1..][i];
      }
    }
  }

  /** The list is empty exactly when no property is required. */
  lemma {:induction false} RequiredNamesEmpty(ps: seq<(string, Element)>)
    ensures RequiredNames(ps) == [] <==> forall i :: 0 <= i < |ps| ==> !ps[i].1.required
    decreases ps
  {
    if ps != [] {
      RequiredNamesEmpty(ps[1..]);
      assert forall i :: 1 <= i < |ps| ==> ps[i] == ps[1..][i - 1];
    }
  }

  /** The names of the required properties keep the properties' order: a
      dict split in two gives the names of the first part, then those of the
      second, and a single property gives its name exactly when it is
      required. */
  lemma RequiredNamesOrder(a: seq<(string, Element)>, b: seq<(string, Element)>, k: string, p: Element)
    ensures RequiredNames(a + b) == RequiredNames(a) + RequiredNames(b)
    ensures RequiredNames([(k, p)]) == if p.required then [JStr(k)] else []
  {
    RequiredNamesAppend(a, b);
    assert [(k, p)][1..] == [];
  }

  lemma {:induction false} RequiredNamesAppend(a: seq<(string, Element)>, b: seq<(string, Element)>)
    ensures RequiredNames(a + b) == RequiredNames(a) + RequiredNames(b)
    decreases a
  {
    if a == [] {
      assert a + b == b;
    } else {
      assert (a + b)[0] == a[0] && (a + b)[1..] == a[1..] + b;
      RequiredNamesAppend(a[1..], b);
    }
  }

  /** No value is listed twice. */
  predicate NoRepeats(r: seq<Json>) {
    forall i, j :: 0 <= i < j < |r| ==> r[i] != r[j]
  }

  /** With distinct property names no name is listed twice. */
  lemma {:induction false} RequiredNamesDistinct(ps: seq<(string, Element)>)
    requires UniqueKeys(ps)
    ensures NoRepeats(RequiredNames(ps))
    decreases ps
  {
    if ps != [] {
      var rest := RequiredNames(ps[1..]);
      assert UniqueKeys(ps[1..]) by {
        forall i, j | 0 <= i < j < |ps[1..]|
          ensures ps[1..][i].0 != ps[1..][j].0
        {
          assert ps[1..][i] == ps[i + 1] && ps[1..][j] == ps[j + 1];
        }
      }
      RequiredNamesDistinct(ps[1..]);
      if ps[0].1.required {
        assert JStr(ps[0].0) !in rest by {
          forall i | 0 <= i < |ps[1..]|
            ensures ps[1..][i].0 != ps[0].0
          {
            assert ps[1..][i] == ps[i + 1];
          }
          RequiredNamesMembers(ps[1..], ps[0].0);
        }
        var r := [JStr(ps[0].0)] + rest;
        forall i, j | 0 <= i < j < |r|
          ensures r[i] != r[j]
        {
          if i == 0 {
            assert r[j] == rest[j - 1];
            assert rest[j - 1] in rest;
          } else {
            assert r[i] == rest[i - 1] && r[j] == rest[j - 1];
            assert rest[i - 1] != rest[j - 1];
          }
        }
      }
    }
  }

  /** The "required" entry of an OBJECT's document holds the required names,
      in property order; there is none when no property is required. */
  lemma RequiredEntry(e: Element)
    requires e.dataType == Object && e.properties != []
    ensures Get(ElementSchema(e).fields, "required") ==
      if RequiredNames(e.properties) == [] then None else Some(JArr(RequiredNames(e.properties)))
  {
    var req := RequiredNames(e.properties);
    var fields := ElementSchema(e).fields;
    var top := [("type", JStr(TypeName(e.dataType))), ("description", DescriptionJson(e.description))];
    var props := ("properties", JObj(PropertySchemas(e.properties)));
    var tail: seq<(string, Json)> := if req == [] then [] else [("required", JArr(req))];
    var front := [top[0], top[1], props];
    assert Constraints(e) == [props] + tail;
    assert fields == top + ([props] + tail);
    assert fields == front + tail;
    assert Keys(front) == ["type", "description", "properties"];
    GetAppend(front, tail, "required");
  }

  /** A JSON value holding no object or array. */
  predicate Scalar(j: Json) {
    !j.JObj? && !j.JArr?
  }

  /** A run of `if value is not None: schema[key] = value` steps: the
      entries whose value is present, in order. */
  function Present(kvs: seq<(string, Option<Json>)>): (r: seq<(string, Json)>)
    ensures forall k :: k in Keys(r) <==> exists i :: 0 <= i < |kvs| && kvs[i].0 == k && kvs[i].1.Some?
  {
    if kvs == [] then []
    else
      var rest := Present(kvs[1..]);
      assert forall i :: 1 <= i < |kvs| ==> kvs[i] == kvs[1..][i - 1];
      var head := [(kvs[0].0, kvs[0].1.GetOr(JNull))];
      KeysAppend(head, rest);
      assert Keys(head) == [kvs[0].0];
      if kvs[0].1.Some? then head + rest else rest
  }

  /** Present values that are all scalars stay scalars. */
  lemma {:induction false} PresentScalar(kvs: seq<(string, Option<Json>)>)
    requires forall i :: 0 <= i < |kvs| && kvs[i].1.Some? ==> Scalar(kvs[i].1.value)
    ensures forall j :: 0 <= j < |Present(kvs)| ==> Scalar(Present(kvs)[j].1)
    decreases kvs
  {
    if kvs != [] {
      assert forall i :: 1 <= i < |kvs| ==> kvs[i] == kvs[1..][i - 1];
      PresentScalar(kvs[1..]);
    }
  }

  /** Distinct keys stay distinct when the absent entries are dropped. */
  lemma {:induction false} PresentUnique(kvs: seq<(string, Option<Json>)>)
    requires UniqueKeys(kvs)
    ensures UniqueKeys(Present(kvs))
    decreases kvs
  {
    if kvs != [] {
      var rest := Present(kvs[1..]);
      PresentUnique(kvs[1..]);
      if kvs[0].1.Some? {
        assert forall i :: 1 <= i < |kvs| ==> kvs[i] == kvs[1..][i - 1];
        assert kvs[0].0 !in Keys(rest);
        UniqueAppend([(kvs[0].0, kvs[0].1.value)], rest);
      }
    }
  }

  function MapNumber(n: Option<Number>): (r: Option<Json>)
    ensures r.Some? <==> n.Some?
  {
    match n
    case Some(x) => Some(NumberJson(x))
    case None => None
  }

  function MapInt(n: Option<int>): (r: Option<Json>)
    ensures r.Some? <==> n.Some?
  {
    match n
    case Some(x) => Some(JInt(x))
    case None => None
  }

  /** `if element.pattern:` skips an empty pattern as well as a missing one. */
  function PatternJson(p: Option<string>): (r: Option<Json>)
    ensures r.Some? <==> NonEmpty(p)
  {
    if NonEmpty(p) then Some(JStr(p.value)) else None
  }

  /** minimum, maximum, minLength, maxLength and pattern, each when set. */
  function Bounds(e: Element): seq<(string, Json)> {
    Present([("minimum", MapNumber(e.minValue)),
             ("maximum", MapNumber(e.maxValue)),
             ("minLength", MapInt(e.minLength)),
             ("maxLength", MapInt(e.maxLength)),
             ("pattern", PatternJson(e.pattern))])
  }

  /** `Schema.to_json_schema()`: the root's document, or `{}` without a root. */
  function ToJsonSchema(s: Schema): (r: Json)
    ensures r.JObj?
    ensures s.root == None <==> r == JObj([])
    ensures s.root.Some? ==> r == ElementSchema(s.root.value)
  {
    match s.root
    case Some(root) => ElementSchema(root)
    case None => JObj([])
  }

  // ---- which keys appear ----

  /** The constraint keys of a STRING, INTEGER or FLOAT element. */
  lemma BoundsKeys(e: Element)
    ensures var ks := Keys(Bounds(e));
      && ("minimum" in ks <==> e.minValue.Some?)
      && ("maximum" in ks <==> e.maxValue.Some?)
      && ("minLength" in ks <==> e.minLength.Some?)
      && ("maxLength" in ks <==> e.maxLength.Some?)
      && ("pattern" in ks <==> NonEmpty(e.pattern))
      && UniqueKeys(Bounds(e))
      && forall k :: k in ks ==> k in {"minimum", "maximum", "minLength", "maxLength", "pattern"}
  {
    var kvs := [("minimum", MapNumber(e.minValue)),
                ("maximum", MapNumber(e.maxValue)),
                ("minLength", MapInt(e.minLength)),
                ("maxLength", MapInt(e.maxLength)),
                ("pattern", PatternJson(e.pattern))];
    assert Keys(kvs) == ["minimum", "maximum", "minLength", "maxLength", "pattern"];
    assert kvs[0].1.Some? <==> e.minValue.Some?;
    assert kvs[1].1.Some? <==> e.maxValue.Some?;
    assert kvs[2].1.Some? <==> e.minLength.Some?;
    assert kvs[3].1.Some? <==> e.maxLength.Some?;
    assert kvs[4].1.Some? <==> NonEmpty(e.pattern);
    BoundNamesUnique(kvs);
    PresentUnique(kvs);
  }

  lemma BoundNamesUnique(kvs: seq<(string, Option<Json>)>)
    requires Keys(kvs) == ["minimum", "maximum", "minLength", "maxLength", "pattern"]
    ensures UniqueKeys(kvs)
  {
    var ks := Keys(kvs);
    forall i, j | 0 <= i < j < |kvs|
      ensures kvs[i].0 != kvs[j].0
    {
      assert kvs[i].0 == ks[i] && kvs[j].0 == ks[j];
    }
  }

  /** The keys an OBJECT element adds: "properties" when it has properties,
      then "required" when one of them is required. */
  lemma ObjectKeys(e: Element)
    requires e.dataType == Object
    ensures var ks := Keys(Constraints(e));
      && ("properties" in ks <==> e.properties != [])
      && ("required" in ks <==> exists i :: 0 <= i < |e.properties| && e.properties[i].1.required)
      && (forall k :: k in ks ==> k in {"properties", "required"})
      && UniqueKeys(Constraints(e))
  {
    var c := Constraints(e);
    if e.properties != [] {
      var req := RequiredNames(e.properties);
      var props := [("properties", JObj(PropertySchemas(e.properties)))];
      var tail: seq<(string, Json)> := if req == [] then [] else [("required", JArr(req))];
      assert c == props + tail;
      KeysAppend(props, tail);
      RequiredNamesEmpty(e.properties);
      if req == [] {
        assert Keys(c) == ["properties"];
      } else {
        assert Keys(c) == ["properties", "required"];
      }
    } else {
      assert Keys(c) == [];
    }
  }

  /** The keys any element adds after "type" and "description". */
  lemma ConstraintKeys(e: Element)
    ensures ConstraintKeysAre(e, Keys(Constraints(e)))
    ensures UniqueKeys(Constraints(e))
  {
    if e.dataType == Object {
      ObjectConstraintKeys(e);
    } else if e.dataType == Array {
      ArrayConstraintKeys(e);
    } else if Constrained(e.dataType) {
      BoundedConstraintKeys(e);
    } else {
      assert Constraints(e) == [];
    }
  }

  /** Which keys follow "type" and "description": "properties" for an
      OBJECT with properties, and "required" when one of those is required;
      "items" for an ARRAY with an item schema; the five constraints for
      STRING, INTEGER and FLOAT elements when set (an empty pattern counting
      as unset). */
  ghost predicate ConstraintKeysAre(e: Element, ks: seq<string>) {
    && "type" !in ks && "description" !in ks
    && ("properties" in ks <==> e.dataType == Object && e.properties != [])
    && ("required" in ks <==> e.dataType == Object && exists i :: 0 <= i < |e.properties| && e.properties[i].1.required)
    && ("items" in ks <==> e.dataType == Array && e.arrayType.Some?)
    && ("minimum" in ks <==> Constrained(e.dataType) && e.minValue.Some?)
    && ("maximum" in ks <==> Constrained(e.dataType) && e.maxValue.Some?)
    && ("minLength" in ks <==> Constrained(e.dataType) && e.minLength.Some?)
    && ("maxLength" in ks <==> Constrained(e.dataType) && e.maxLength.Some?)
    && ("pattern" in ks <==> Constrained(e.dataType) && NonEmpty(e.pattern))
  }

  lemma ObjectConstraintKeys(e: Element)
    requires e.dataType == Object
    ensures ConstraintKeysAre(e, Keys(Constraints(e))) && UniqueKeys(Constraints(e))
  {
    ObjectKeys(e);
  }

  lemma ArrayConstraintKeys(e: Element)
    requires e.dataType == Array
    ensures ConstraintKeysAre(e, Keys(Constraints(e))) && UniqueKeys(Constraints(e))
  {
    assert Keys(Constraints(e)) == if e.arrayType.Some? then ["items"] else [];
  }

  lemma BoundedConstraintKeys(e: Element)
    requires Constrained(e.dataType)
    ensures ConstraintKeysAre(e, Keys(Constraints(e))) && UniqueKeys(Constraints(e))
  {
    assert Constraints(e) == Bounds(e);
    BoundsKeys(e);
  }

  /** Exactly which keys the document of an element carries, each at most
      once: "type" and "description" first, then the keys
      `ConstraintKeysAre` lists. */
  lemma SchemaKeys(e: Element)
    ensures var ks := Keys(ElementSchema(e).fields);
      && |ks| >= 2 && ks[0] == "type" && ks[1] == "description"
      && ConstraintKeysAre(e, ks[2..])
      && UniqueKeys(ElementSchema(e).fields)
  {
    var c := Constraints(e);
    var head := SchemaHead(e);
    var fields := ElementSchema(e).fields;
    SchemaSplit(e);
    ConstraintKeys(e);
    KeysAppend(head, c);
    assert Keys(fields)[2..] == Keys(c);
    UniqueAppend(head, c);
  }

  /** The two entries every document starts with. */
  function SchemaHead(e: Element): (h: seq<(string, Json)>)
    ensures Keys(h) == ["type", "description"] && UniqueKeys(h)
  {
    [("type", JStr(TypeName(e.dataType))), ("description", DescriptionJson(e.description))]
  }

  lemma SchemaSplit(e: Element)
    ensures ElementSchema(e).fields == SchemaHead(e) + Constraints(e)
  {
  }
  /** No inferred element carries a constraint keyword: the elements either
      extractor builds leave every constraint unset, so their documents hold
      none of "minimum", "maximum", "minLength", "maxLength" and "pattern". */
  lemma InferredUnconstrained(v: Json, name: string, x: XmlExtractor.XmlElem)
    ensures var ks := Keys(ElementSchema(JsonExtractor.BuildJson(v, name)).fields);
      forall k :: k in ConstraintNames ==> k !in ks
    ensures var ks := Keys(ElementSchema(XmlExtractor.BuildXml(x)).fields);
      forall k :: k in ConstraintNames ==> k !in ks
  {
    NoConstraintKeys(JsonExtractor.BuildJson(v, name));
    NoConstraintKeys(XmlExtractor.BuildXml(x));
  }

  lemma NoConstraintKeys(e: Element)
    requires Unconstrained(e)
    ensures var ks := Keys(ElementSchema(e).fields);
      forall k :: k in ConstraintNames ==> k !in ks
  {
    SchemaKeys(e);
    var ks := Keys(ElementSchema(e).fields);
    assert ks == ks[..2] + ks[2..];
    assert ks[..2] == ["type", "description"];
  }

  // ---- what the entries hold ----

  /** Each property of the document is the document of the schema property
      of the same name, and no other name is present. */
  lemma {:induction false} PropertyLookup(ps: seq<(string, Element)>, k: string)
    ensures Get(PropertySchemas(ps), k) ==
      match Get(ps, k)
      case Some(p) => Some(ElementSchema(p))
      case None => None
    decreases ps
  {
    if ps != [] && ps[0].0 != k {
      PropertyLookup(ps[1..], k);
      assert PropertySchemas(ps)[1..] == PropertySchemas(ps[1..]);
    }
  }

  /** Property schemas with unique names, recursively: what a dict guarantees. */
  ghost predicate Distinct(e: Element)
    decreases e, 1
  {
    && UniqueKeys(e.properties)
    && DistinctProps(e.properties)
    && match e.arrayType
       case Some(a) => Distinct(a)
       case None => true
  }

  ghost predicate DistinctProps(ps: seq<(string, Element)>)
    decreases ps, 2
  {
    ps != [] ==>
      assert ps[0].1 < ps[0];
      Distinct(ps[0].1) && DistinctProps(ps[1..])
  }

  /** The rendered document is itself a well-formed JSON value: no object in
      it repeats a key. */
  lemma {:induction false} SchemaWellFormed(e: Element)
    requires Distinct(e)
    ensures JsonExtractor.WellFormed(ElementSchema(e))
    decreases e, 1
  {
    SchemaKeys(e);
    var c := Constraints(e);
    var r := ElementSchema(e);
    assert r.fields == [r.fields[0], r.fields[1]] + c;
    assert JsonExtractor.WellFormed(r.fields[0].1) && JsonExtractor.WellFormed(r.fields[1].1);
    ConstraintsWellFormed(e);
    JsonExtractor.FieldsWellFormedAppend([r.fields[0], r.fields[1]], c);
  }

  lemma {:induction false} ConstraintsWellFormed(e: Element)
    requires Distinct(e)
    ensures JsonExtractor.FieldsWellFormed(Constraints(e))
    decreases e, 0
  {
    var c := Constraints(e);
    match e.dataType {
      case Object =>
        if e.properties != [] {
          var req := RequiredNames(e.properties);
          var ps := PropertySchemas(e.properties);
          PropertiesWellFormed(e.properties);
          SameKeysUnique(ps, e.properties);
          assert JsonExtractor.WellFormed(JObj(ps));
          if req != [] {
            RequiredWellFormed(req);
          }
        }
      case Array =>
        if e.arrayType.Some? {
          SchemaWellFormed(e.arrayType.value);
        }
      case _ =>
        if Constrained(e.dataType) {
          BoundsWellFormed(e);
        }
    }
  }

  lemma {:induction false} PropertiesWellFormed(ps: seq<(string, Element)>)
    requires DistinctProps(ps)
    ensures JsonExtractor.FieldsWellFormed(PropertySchemas(ps))
    decreases ps, 2
  {
    if ps != [] {
      assert ps[0].1 < ps[0];
      SchemaWellFormed(ps[0].1);
      PropertiesWellFormed(ps[1..]);
      assert PropertySchemas(ps)[1..] == PropertySchemas(ps[1..]);
    }
  }

  lemma {:induction false} RequiredWellFormed(req: seq<Json>)
    requires forall j :: j in req ==> j.JStr?
    ensures JsonExtractor.ItemsWellFormed(req)
    decreases req
  {
    if req != [] {
      assert req[0] in req;
      assert forall j :: j in req[1..] ==> j in req;
      RequiredWellFormed(req[1..]);
    }
  }

  lemma BoundsWellFormed(e: Element)
    ensures JsonExtractor.FieldsWellFormed(Bounds(e))
  {
    var kvs := [("minimum", MapNumber(e.minValue)),
                ("maximum", MapNumber(e.maxValue)),
                ("minLength", MapInt(e.minLength)),
                ("maxLength", MapInt(e.maxLength)),
                ("pattern", PatternJson(e.pattern))];
    PresentScalar(kvs);
    JsonExtractor.ScalarFieldsWellFormed(Bounds(e));
  }
}
