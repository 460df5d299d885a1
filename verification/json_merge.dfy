/** `merge_schemas` and `_merge_elements` of
    `schema_extractor/extractors/json_extractor.py`. */
module JsonMerge {
  import opened Wrappers
  import opened Assoc
  import opened Model

  // ---- absorbing several dicts into one ----

  /** The value stored for a key after meeting `v`: `v` itself for a new key,
      else the combination of the stored value with `v`. */
  function Combined<V>(stored: Option<V>, v: V, f: (V, V) -> V): V {
    match stored
    case None => v
    case Some(x) => f(x, v)
  }

  /** One dict's entries folded into `acc`, in order. */
  function Absorb<V>(acc: seq<(string, V)>, ps: seq<(string, V)>, f: (V, V) -> V): seq<(string, V)>
    decreases ps
  {
    if ps == [] then acc
    else Absorb(Put(acc, ps[0].0, Combined(Get(acc, ps[0].0), ps[0].1, f)), ps[1..], f)
  }

  /** Several dicts folded into `acc`, one after another. */
  function AbsorbAll<V>(acc: seq<(string, V)>, dicts: seq<seq<(string, V)>>, f: (V, V) -> V): seq<(string, V)>
    decreases dicts
  {
    if dicts == [] then acc else AbsorbAll(Absorb(acc, dicts[0], f), dicts[1..], f)
  }

  /** The values a key has across several dicts, in dict order. */
  function Occurrences<V>(dicts: seq<seq<(string, V)>>, k: string): (os: seq<V>)
    ensures |os| == 0 <==> forall i :: 0 <= i < |dicts| ==> k !in Keys(dicts[i])
    decreases dicts
  {
    if dicts == [] then []
    else
      var rest := Occurrences(dicts[1..], k);
      assert forall i :: 1 <= i < |dicts| ==> dicts[1..][i - 1] == dicts[i];
      match Get(dicts[0], k)
      case Some(v) => [v] + rest
      case None => rest
  }

  /** Left fold of `f` over the values, starting from what is stored. */
  function Extend<V>(stored: Option<V>, os: seq<V>, f: (V, V) -> V): (r: Option<V>)
    ensures r.None? <==> stored.None? && os == []
    decreases os
  {
    if os == [] then stored else Extend(Some(Combined(stored, os[0], f)), os[1..], f)
  }

  lemma {:induction false} ExtendAppend<V>(stored: Option<V>, a: seq<V>, b: seq<V>, f: (V, V) -> V)
    ensures Extend(stored, a + b, f) == Extend(Extend(stored, a, f), b, f)
    decreases a
  {
    if a == [] {
      assert a + b == b;
    } else {
      assert (a + b)[0] == a[0] && (a + b)[1..] == a[1..] + b;
      assert Extend(stored, a + b, f) == Extend(Some(Combined(stored, a[0], f)), a[1..] + b, f);
      ExtendAppend(Some(Combined(stored, a[0], f)), a[1..], b, f);
    }
  }

  function AsSeq<V>(o: Option<V>): seq<V> {
    match o
    case None => []
    case Some(v) => [v]
  }

  /** With distinct keys in `ps`, absorbing it changes a key's value by
      combining with that key's value in `ps`, if any. */
  lemma {:induction false} AbsorbGet<V>(acc: seq<(string, V)>, ps: seq<(string, V)>, f: (V, V) -> V, k: string)
    requires UniqueKeys(ps)
    ensures Get(Absorb(acc, ps, f), k) == Extend(Get(acc, k), AsSeq(Get(ps, k)), f)
    decreases ps
  {
    if ps != [] {
      var key := ps[0].0;
      var acc' := Put(acc, key, Combined(Get(acc, key), ps[0].1, f));
      var rest := ps[1..];
      assert UniqueKeys(rest) by {
        forall i, j | 0 <= i < j < |rest|
          ensures rest[i].0 != rest[j].0
        {
          assert rest[i] == ps[i + 1] && rest[j] == ps[j + 1];
        }
      }
      AbsorbGet(acc', rest, f, k);
      GetPut(acc, key, Combined(Get(acc, key), ps[0].1, f), k);
      if key == k {
        GetMissing(rest, k) by {
          forall i | 0 <= i < |rest|
            ensures rest[i].0 != k
          {
            assert rest[i] == ps[i + 1];
          }
        }
      }
    }
  }

  /** Absorbing several dicts with distinct keys each: a key's final value is
      the left fold of `f` over its values in dict order. */
  lemma {:induction false} AbsorbAllGet<V>(acc: seq<(string, V)>, dicts: seq<seq<(string, V)>>, f: (V, V) -> V, k: string)
    requires forall i :: 0 <= i < |dicts| ==> UniqueKeys(dicts[i])
    ensures Get(AbsorbAll(acc, dicts, f), k) == Extend(Get(acc, k), Occurrences(dicts, k), f)
    decreases dicts
  {
    if dicts != [] {
      var acc' := Absorb(acc, dicts[0], f);
      AbsorbGet(acc, dicts[0], f, k);
      assert forall i :: 1 <= i < |dicts| ==> dicts[1..][i - 1] == dicts[i];
      AbsorbAllGet(acc', dicts[1..], f, k);
      ExtendAppend(Get(acc, k), AsSeq(Get(dicts[0], k)), Occurrences(dicts[1..], k), f);
      assert Occurrences(dicts, k) == AsSeq(Get(dicts[0], k)) + Occurrences(dicts[1..], k);
    }
  }

  // ---- attributes ----

  /** Meeting an attribute again: it stays required only if both are, and an
      unset (empty) default is filled from the newcomer. */
  function CombineAttribute(existing: Attribute, other: Attribute): (r: Attribute)
    ensures r.name == existing.name && r.dataType == existing.dataType
    ensures r.description == existing.description
    ensures r.required == (existing.required && other.required)
    ensures NonEmpty(existing.defaultValue) ==> r.defaultValue == existing.defaultValue
  {
    existing.(
      required := existing.required && other.required,
      defaultValue :=
        if NonEmpty(other.defaultValue) && !NonEmpty(existing.defaultValue) then other.defaultValue
        else existing.defaultValue)
  }

  /** Index of the first attribute with a non-empty default, if any. */
  function FirstDefault(os: seq<Attribute>): (r: Option<nat>)
    ensures r.None? <==> forall i :: 0 <= i < |os| ==> !NonEmpty(os[i].defaultValue)
    ensures r.Some? ==>
      && r.value < |os| && NonEmpty(os[r.value].defaultValue)
      && forall i :: 0 <= i < r.value ==> !NonEmpty(os[i].defaultValue)
  {
    if os == [] then None
    else if NonEmpty(os[0].defaultValue) then Some(0)
    else
      var r := FirstDefault(os[1..]);
      assert forall i :: 1 <= i < |os| ==> os[1..][i - 1] == os[i];
      match r
      case None => None
      case Some(j) => Some(j + 1)
  }

  /** The default a list of occurrences ends up with: the first non-empty
      one, else the first occurrence's own. */
  function DefaultOf(os: seq<Attribute>): Option<string>
    requires |os| > 0
  {
    match FirstDefault(os)
    case None => os[0].defaultValue
    case Some(j) => os[j].defaultValue
  }

  lemma FirstDefaultCons(x: Attribute, os: seq<Attribute>)
    ensures FirstDefault([x] + os) ==
      if NonEmpty(x.defaultValue) then Some(0)
      else match FirstDefault(os) case None => None case Some(j) => Some(j + 1)
  {
    assert ([x] + os)[1..] == os;
  }

  /** The attribute left after meeting all its occurrences: the first one's
      name, type and description, required exactly when every occurrence is,
      and the first non-empty default (else the first occurrence's own). */
  lemma CombinedAttribute(first: Attribute, os: seq<Attribute>)
    ensures var r := Extend(Some(first), os, CombineAttribute).value;
      && r.name == first.name && r.dataType == first.dataType && r.description == first.description
      && r.required == (first.required && forall i :: 0 <= i < |os| ==> os[i].required)
      && r.defaultValue == DefaultOf([first] + os)
  {
    CombinedFields(first, os);
    CombinedRequired(first, os);
    CombinedDefault(first, os);
  }

  /** Every occurrence is required. */
  predicate AllRequired(os: seq<Attribute>) {
    forall i :: 0 <= i < |os| ==> os[i].required
  }

  lemma {:induction false} CombinedFields(first: Attribute, os: seq<Attribute>)
    ensures var r := Extend(Some(first), os, CombineAttribute).value;
      r.name == first.name && r.dataType == first.dataType && r.description == first.description
    decreases os
  {
    if os != [] {
      CombinedFields(CombineAttribute(first, os[0]), os[1..]);
    }
  }

  lemma {:induction false} CombinedRequired(first: Attribute, os: seq<Attribute>)
    ensures Extend(Some(first), os, CombineAttribute).value.required == (first.required && AllRequired(os))
    decreases os
  {
    if os != [] {
      var next := CombineAttribute(first, os[0]);
      CombinedRequired(next, os[1..]);
      assert AllRequired(os) == (os[0].required && AllRequired(os[1..])) by {
        assert forall i :: 1 <= i < |os| ==> os[1..][i - 1] == os[i];
      }
    }
  }

  lemma {:induction false} CombinedDefault(first: Attribute, os: seq<Attribute>)
    ensures Extend(Some(first), os, CombineAttribute).value.defaultValue == DefaultOf([first] + os)
    decreases os
  {
    if os == [] {
      assert [first] + os == [first];
    } else {
      var next := CombineAttribute(first, os[0]);
      CombinedDefault(next, os[1..]);
      FirstDefaultCons(first, os);
      FirstDefaultCons(next, os[1..]);
      assert os == [os[0]] + os[1..];
      FirstDefaultCons(os[0], os[1..]);
      var all, all' := [first] + os, [next] + os[1..];
      match FirstDefault(os[1..]) {
        case None =>
        case Some(j) =>
          assert all'[j + 1] == os[j + 1] && all[j + 2] == os[j + 1];
      }
    }
  }

  // ---- properties: the recursive merge ----

  /** Nesting height of an element's property tree (a leaf has height 1). */
  function Height(e: Element): (h: nat)
    ensures h >= 1
    decreases e
  {
    1 + PropsHeight(e.properties)
  }

  function PropsHeight(ps: seq<(string, Element)>): nat
    decreases ps
  {
    if ps == [] then 0
    else
      assert ps[0].1 < ps[0];
      var a, b := Height(ps[0].1), PropsHeight(ps[1..]);
      if a >= b then a else b
  }

  function MaxHeight(es: seq<Element>): (h: nat)
    ensures forall i :: 0 <= i < |es| ==> Height(es[i]) <= h
    ensures |es| > 0 ==> h >= 1 && exists i :: 0 <= i < |es| && Height(es[i]) == h
  {
    if es == [] then 0
    else
      var a, b := Height(es[0]), MaxHeight(es[1..]);
      assert forall i :: 1 <= i < |es| ==> es[1..][i - 1] == es[i];
      if a >= b then a else b
  }

  /** Every value of `ps` is lower than `h`. */
  ghost predicate Below(ps: seq<(string, Element)>, h: nat) {
    forall i :: 0 <= i < |ps| ==> Height(ps[i].1) < h
  }

  lemma {:induction false} PropsBelowHeight(ps: seq<(string, Element)>)
    ensures Below(ps, PropsHeight(ps) + 1)
  {
    if ps != [] {
      PropsBelowHeight(ps[1..]);
      forall i | 1 <= i < |ps|
        ensures Height(ps[i].1) < PropsHeight(ps) + 1
      {
        assert ps[1..][i - 1] == ps[i];
      }
    }
  }

  lemma {:induction false} HeightOfBelow(ps: seq<(string, Element)>, h: nat)
    requires Below(ps, h) && h >= 1
    ensures PropsHeight(ps) < h
  {
    if ps != [] {
      assert Below(ps[1..], h) by {
        forall i | 0 <= i < |ps[1..]|
          ensures Height(ps[1..][i].1) < h
        {
          assert ps[1..][i] == ps[i + 1];
        }
      }
      HeightOfBelow(ps[1..], h);
    }
  }

  lemma ElementsBelow(es: seq<Element>)
    ensures forall i :: 0 <= i < |es| ==> Below(es[i].properties, MaxHeight(es))
  {
    forall i | 0 <= i < |es|
      ensures Below(es[i].properties, MaxHeight(es))
    {
      PropsBelowHeight(es[i].properties);
    }
  }

  lemma GetBelow(ps: seq<(string, Element)>, k: string, h: nat)
    requires Below(ps, h) && Get(ps, k).Some?
    ensures Height(Get(ps, k).value) < h
  {
    GetFound(ps, k);
  }

  lemma PutBelow(ps: seq<(string, Element)>, k: string, v: Element, h: nat)
    requires Below(ps, h) && Height(v) < h
    ensures Below(Put(ps, k, v), h)
  {
    PutFrom(ps, k, v);
    var r := Put(ps, k, v);
    forall i | 0 <= i < |r|
      ensures Height(r[i].1) < h
    {
      if r[i] != (k, v) {
        var j :| 0 <= j < |ps| && ps[j] == r[i];
      }
    }
  }

  /** `_merge_elements(elements)`: the first element with its properties and
      attributes replaced by the merged dicts; a single element is returned
      as it is. Only properties and attributes are merged. */
  function MergeElements(es: seq<Element>): (r: Element)
    requires |es| > 0
    ensures Height(r) <= MaxHeight(es)
    ensures r == es[0].(properties := r.properties, attributes := r.attributes)
    decreases MaxHeight(es), 2, 0
  {
    if |es| == 1 then es[0]
    else
      var h := MaxHeight(es);
      ElementsBelow(es);
      var props := MergeAllProps([], es, h);
      HeightOfBelow(props, h);
      es[0].(properties := props, attributes := AbsorbAll([], AttributeDicts(es), CombineAttribute))
  }

  /** The loop over `elements` collecting `all_properties`. */
  function MergeAllProps(acc: seq<(string, Element)>, es: seq<Element>, h: nat): (r: seq<(string, Element)>)
    requires Below(acc, h) && forall i :: 0 <= i < |es| ==> Below(es[i].properties, h)
    ensures Below(r, h)
    decreases h, 1, |es|
  {
    if es == [] then acc
    else MergeAllProps(MergeProps(acc, es[0].properties, h), es[1..], h)
  }

  /** The inner loop over one element's `properties.items()`. */
  function MergeProps(acc: seq<(string, Element)>, ps: seq<(string, Element)>, h: nat): (r: seq<(string, Element)>)
    requires Below(acc, h) && Below(ps, h)
    ensures Below(r, h)
    decreases h, 0, |ps|
  {
    if ps == [] then acc
    else
      var (k, p) := ps[0];
      assert Height(p) < h;
      var stored := Get(acc, k);
      assert stored.Some? ==> Height(stored.value) < h by {
        if stored.Some? { GetBelow(acc, k, h); }
      }
      assert stored.Some? ==> MaxHeight([stored.value, p]) < h by {
        if stored.Some? {
          var pair := [stored.value, p];
          assert pair[0] == stored.value && pair[1] == p;
        }
      }
      var v := if stored.Some? then MergeElements([stored.value, p]) else p;
      PutBelow(acc, k, v, h);
      assert Below(ps[1..], h) by {
        forall i | 0 <= i < |ps[1..]|
          ensures Height(ps[1..][i].1) < h
        {
          assert ps[1..][i] == ps[i + 1];
        }
      }
      MergeProps(Put(acc, k, v), ps[1..], h)
  }

  function PropertyDicts(es: seq<Element>): (ds: seq<seq<(string, Element)>>)
    ensures |ds| == |es| && forall i :: 0 <= i < |es| ==> ds[i] == es[i].properties
  {
    seq(|es|, i requires 0 <= i < |es| => es[i].properties)
  }

  function AttributeDicts(es: seq<Element>): (ds: seq<seq<(string, Attribute)>>)
    ensures |ds| == |es| && forall i :: 0 <= i < |es| ==> ds[i] == es[i].attributes
  {
    seq(|es|, i requires 0 <= i < |es| => es[i].attributes)
  }

  /** Two property schemas merged, as a repeated key does. */
  function PairMerge(a: Element, b: Element): Element {
    MergeElements([a, b])
  }

  lemma {:induction false} MergePropsIsAbsorb(acc: seq<(string, Element)>, ps: seq<(string, Element)>, h: nat)
    requires Below(acc, h) && Below(ps, h)
    ensures MergeProps(acc, ps, h) == Absorb(acc, ps, PairMerge)
    decreases ps
  {
    if ps != [] {
      var (k, p) := ps[0];
      var v := Combined(Get(acc, k), p, PairMerge);
      assert Height(p) < h;
      if Get(acc, k).Some? {
        GetBelow(acc, k, h);
        var pair := [Get(acc, k).value, p];
        assert pair[0] == Get(acc, k).value && pair[1] == p;
        assert Height(v) <= MaxHeight(pair);
      }
      PutBelow(acc, k, v, h);
      assert Below(ps[1..], h) by {
        forall i | 0 <= i < |ps[1..]|
          ensures Height(ps[1..][i].1) < h
        {
          assert ps[1..][i] == ps[i + 1];
        }
      }
      MergePropsIsAbsorb(Put(acc, k, v), ps[1..], h);
    }
  }

  lemma {:induction false} MergeAllPropsIsAbsorb(acc: seq<(string, Element)>, es: seq<Element>, h: nat)
    requires Below(acc, h) && forall i :: 0 <= i < |es| ==> Below(es[i].properties, h)
    ensures MergeAllProps(acc, es, h) == AbsorbAll(acc, PropertyDicts(es), PairMerge)
    decreases es
  {
    if es != [] {
      MergePropsIsAbsorb(acc, es[0].properties, h);
      assert PropertyDicts(es)[1..] == PropertyDicts(es[1..]);
      MergeAllPropsIsAbsorb(MergeProps(acc, es[0].properties, h), es[1..], h);
    }
  }

  /** Each element's dicts have distinct keys, as Python dicts do. */
  ghost predicate DistinctKeys(es: seq<Element>) {
    forall i :: 0 <= i < |es| ==> UniqueKeys(es[i].properties) && UniqueKeys(es[i].attributes)
  }

  /** A merged property is the pairwise merge, in element order, of every
      schema the key has in the merged elements; a merged attribute is its
      occurrences combined in order. A key is present exactly when some
      element has it. */
  lemma MergedLookup(es: seq<Element>, k: string)
    requires |es| > 0 && DistinctKeys(es)
    ensures Get(MergeElements(es).properties, k) == Extend(None, Occurrences(PropertyDicts(es), k), PairMerge)
    ensures Get(MergeElements(es).attributes, k) == Extend(None, Occurrences(AttributeDicts(es), k), CombineAttribute)
    ensures k in Keys(MergeElements(es).properties) <==> exists i :: 0 <= i < |es| && k in Keys(es[i].properties)
    ensures k in Keys(MergeElements(es).attributes) <==> exists i :: 0 <= i < |es| && k in Keys(es[i].attributes)
  {
    if |es| == 1 {
      assert Occurrences(PropertyDicts(es), k) == AsSeq(Get(es[0].properties, k));
      assert Occurrences(AttributeDicts(es), k) == AsSeq(Get(es[0].attributes, k));
    } else {
      ElementsBelow(es);
      MergeAllPropsIsAbsorb([], es, MaxHeight(es));
      AbsorbAllGet([], PropertyDicts(es), PairMerge, k);
      AbsorbAllGet([], AttributeDicts(es), CombineAttribute, k);
    }
    var r := MergeElements(es);
    assert (k in Keys(r.properties)) == Get(r.properties, k).Some?;
    assert (k in Keys(r.attributes)) == Get(r.attributes, k).Some?;
  }

  /** Every dict's keys, one dict after another. */
  function AllKeys<V>(dicts: seq<seq<(string, V)>>): seq<string>
    decreases dicts
  {
    if dicts == [] then [] else Keys(dicts[0]) + AllKeys(dicts[1..])
  }

  /** Absorbing a dict assigns its keys in order and keeps keys unique. */
  lemma {:induction false} AbsorbKeys<V>(acc: seq<(string, V)>, ps: seq<(string, V)>, f: (V, V) -> V)
    ensures Keys(Absorb(acc, ps, f)) == AddKeys(Keys(acc), Keys(ps))
    ensures UniqueKeys(acc) ==> UniqueKeys(Absorb(acc, ps, f))
    decreases ps
  {
    if ps != [] {
      var k := ps[0].0;
      var acc' := Put(acc, k, Combined(Get(acc, k), ps[0].1, f));
      AbsorbKeys(acc', ps[1..], f);
      KeysCons(ps);
      assert Keys(acc') == if k in Keys(acc) then Keys(acc) else Keys(acc) + [k];
      if UniqueKeys(acc) {
        PutUnique(acc, k, Combined(Get(acc, k), ps[0].1, f));
      }
    }
  }

  lemma {:induction false} AbsorbAllKeys<V>(acc: seq<(string, V)>, dicts: seq<seq<(string, V)>>, f: (V, V) -> V)
    ensures Keys(AbsorbAll(acc, dicts, f)) == AddKeys(Keys(acc), AllKeys(dicts))
    ensures UniqueKeys(acc) ==> UniqueKeys(AbsorbAll(acc, dicts, f))
    decreases dicts
  {
    if dicts != [] {
      var acc' := Absorb(acc, dicts[0], f);
      AbsorbKeys(acc, dicts[0], f);
      AbsorbAllKeys(acc', dicts[1..], f);
      AddKeysAppend(Keys(acc), Keys(dicts[0]), AllKeys(dicts[1..]));
    }
  }

  /** The merged properties and attributes hold each key once, in the order
      the keys first appear over the elements' dicts taken in list order. */
  lemma MergedKeys(es: seq<Element>)
    requires |es| > 0 && DistinctKeys(es)
    ensures Keys(MergeElements(es).properties) == AddKeys([], AllKeys(PropertyDicts(es)))
    ensures Keys(MergeElements(es).attributes) == AddKeys([], AllKeys(AttributeDicts(es)))
    ensures UniqueKeys(MergeElements(es).properties) && UniqueKeys(MergeElements(es).attributes)
  {
    if |es| == 1 {
      assert AllKeys(PropertyDicts(es)) == Keys(es[0].properties) + [];
      assert AllKeys(AttributeDicts(es)) == Keys(es[0].attributes) + [];
      UniqueKeysList(es[0].properties);
      UniqueKeysList(es[0].attributes);
      AddKeysFresh([], Keys(es[0].properties));
      AddKeysFresh([], Keys(es[0].attributes));
    } else {
      ElementsBelow(es);
      MergeAllPropsIsAbsorb([], es, MaxHeight(es));
      AbsorbAllKeys([], PropertyDicts(es), PairMerge);
      AbsorbAllKeys([], AttributeDicts(es), CombineAttribute);
    }
  }

  // ---- schemas ----

  /** `merge_schemas(schemas)`: no schemas is an error; one is returned as
      it is; otherwise the first schema renamed "merged_schema", whose root
      is the merge of all roots when every schema has one. */
  function MergeSchemas(schemas: seq<Schema>): (r: Result<Schema>)
    ensures r.Err? <==> schemas == []
    ensures r.Err? ==> r.error == NoSchemas
    ensures |schemas| == 1 ==> r == Ok(schemas[0])
    ensures |schemas| >= 2 ==>
      && r.Ok?
      && r.value == schemas[0].(name := "merged_schema", root := r.value.root)
      && (r.value.root != schemas[0].root ==> forall i :: 0 <= i < |schemas| ==> schemas[i].root.Some?)
  {
    if schemas == [] then Err(NoSchemas)
    else if |schemas| == 1 then Ok(schemas[0])
    else
      var merged := schemas[0].(name := "merged_schema");
      if forall i :: 0 <= i < |schemas| ==> schemas[i].root.Some? then
        Ok(merged.(root := Some(MergeElements(Roots(schemas)))))
      else Ok(merged)
  }

  function Roots(schemas: seq<Schema>): (rs: seq<Element>)
    requires forall i :: 0 <= i < |schemas| ==> schemas[i].root.Some?
    ensures |rs| == |schemas| && forall i :: 0 <= i < |schemas| ==> rs[i] == schemas[i].root.value
  {
    seq(|schemas|, i requires 0 <= i < |schemas| && schemas[i].root.Some? => schemas[i].root.value)
  }

  /** With every root present, the merged root is the merge of all roots;
      otherwise the first schema's root is kept. */
  lemma MergedRoot(schemas: seq<Schema>)
    requires |schemas| >= 2
    ensures (forall i :: 0 <= i < |schemas| ==> schemas[i].root.Some?) ==>
      MergeSchemas(schemas).value.root == Some(MergeElements(Roots(schemas)))
    ensures !(forall i :: 0 <= i < |schemas| ==> schemas[i].root.Some?) ==>
      MergeSchemas(schemas).value.root == schemas[0].root
  {
  }
}
