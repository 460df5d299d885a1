/** Insertion-ordered dictionaries with string keys, as Python `dict`s behave:
    a list of (key, value) pairs, where assigning to a present key replaces its
    value in place and assigning to a new key appends it. */
module Assoc {
  import opened Wrappers

  function Keys<V>(ps: seq<(string, V)>): (ks: seq<string>)
    ensures |ks| == |ps|
    ensures forall i :: 0 <= i < |ps| ==> ks[i] == ps[i].0
  {
    seq(|ps|, i requires 0 <= i < |ps| => ps[i].0)
  }

  function Values<V>(ps: seq<(string, V)>): (vs: seq<V>)
    ensures |vs| == |ps|
    ensures forall i :: 0 <= i < |ps| ==> vs[i] == ps[i].1
  {
    seq(|ps|, i requires 0 <= i < |ps| => ps[i].1)
  }

  lemma KeysCons<V>(ps: seq<(string, V)>)
    requires ps != []
    ensures Keys(ps) == [ps[0].0] + Keys(ps[1..])
  {
  }

  lemma KeysAppend<V>(a: seq<(string, V)>, b: seq<(string, V)>)
    ensures Keys(a + b) == Keys(a) + Keys(b)
  {
  }

  /** No key occurs twice: always true of a Python dict. */
  predicate UniqueKeys<V>(ps: seq<(string, V)>) {
    forall i, j :: 0 <= i < j < |ps| ==> ps[i].0 != ps[j].0
  }

  /** Two dicts with unique, disjoint keys concatenate into one. */
  lemma UniqueAppend<V>(a: seq<(string, V)>, b: seq<(string, V)>)
    requires UniqueKeys(a) && UniqueKeys(b)
    requires forall k :: k in Keys(a) ==> k !in Keys(b)
    ensures UniqueKeys(a + b)
  {
    var ab := a + b;
    forall i, j | 0 <= i < j < |ab|
      ensures ab[i].0 != ab[j].0
    {
      if j < |a| {
        assert ab[i] == a[i] && ab[j] == a[j];
      } else if i >= |a| {
        assert ab[i] == b[i - |a|] && ab[j] == b[j - |a|];
      } else {
        assert ab[i].0 == Keys(a)[i] && ab[j].0 == Keys(b)[j - |a|];
        assert Keys(a)[i] in Keys(a);
      }
    }
  }

  /** `d.get(k)`: the value of the first entry with key `k`. */
  function Get<V>(ps: seq<(string, V)>, k: string): (r: Option<V>)
    ensures r.Some? <==> k in Keys(ps)
  {
    if ps == [] then None
    else if ps[0].0 == k then Some(ps[0].1)
    else
      assert Keys(ps) == [ps[0].0] + Keys(ps[1..]);
      Get(ps[1..], k)
  }

  /** A lookup in two lists one after the other tries the first, then the second. */
  lemma {:induction false} GetAppend<V>(a: seq<(string, V)>, b: seq<(string, V)>, k: string)
    ensures Get(a + b, k) == if k in Keys(a) then Get(a, k) else Get(b, k)
    decreases a
  {
    if a == [] {
      assert a + b == b;
    } else {
      assert (a + b)[0] == a[0] && (a + b)[1..] == a[1..] + b;
      KeysCons(a);
      GetAppend(a[1..], b, k);
    }
  }

  /** `d[k] = v` */
  function Put<V>(ps: seq<(string, V)>, k: string, v: V): (r: seq<(string, V)>)
    ensures k in Keys(ps) ==> Keys(r) == Keys(ps)
    ensures k !in Keys(ps) ==> Keys(r) == Keys(ps) + [k]
  {
    if ps == [] then [(k, v)]
    else if ps[0].0 == k then [(k, v)] + ps[1..]
    else
      assert Keys(ps) == [ps[0].0] + Keys(ps[1..]);
      var r := [ps[0]] + Put(ps[1..], k, v);
      assert Keys(r) == [ps[0].0] + Keys(Put(ps[1..], k, v));
      r
  }

  /** Uniqueness depends on the keys alone. */
  lemma SameKeysUnique<V, W>(a: seq<(string, V)>, b: seq<(string, W)>)
    requires Keys(a) == Keys(b) && UniqueKeys(b)
    ensures UniqueKeys(a)
  {
    forall i, j | 0 <= i < j < |a|
      ensures a[i].0 != a[j].0
    {
      assert Keys(a)[i] == b[i].0 && Keys(a)[j] == b[j].0;
    }
  }

  /** After `d[k] = v`, `d[k]` is `v` and every other key reads as before. */
  lemma {:induction false} GetPut<V>(ps: seq<(string, V)>, k: string, v: V, j: string)
    ensures Get(Put(ps, k, v), j) == if j == k then Some(v) else Get(ps, j)
  {
    if ps != [] && ps[0].0 != k {
      GetPut(ps[1..], k, v, j);
      assert Put(ps, k, v)[1..] == Put(ps[1..], k, v);
    }
  }

  /** `d[k] = v` keeps keys unique. */
  lemma PutUnique<V>(ps: seq<(string, V)>, k: string, v: V)
    requires UniqueKeys(ps)
    ensures UniqueKeys(Put(ps, k, v))
  {
    var r := Put(ps, k, v);
    forall i, j | 0 <= i < j < |r|
      ensures r[i].0 != r[j].0
    {
      assert Keys(r)[i] == r[i].0 && Keys(r)[j] == r[j].0;
      if k !in Keys(ps) && j == |ps| {
        assert Keys(ps)[i] == r[i].0;
      } else {
        assert Keys(ps)[i] == r[i].0 && Keys(ps)[j] == r[j].0;
      }
    }
  }

  /** For unique keys, the lookup finds exactly the entry at the key's position. */
  lemma GetUnique<V>(ps: seq<(string, V)>, i: nat)
    requires UniqueKeys(ps) && i < |ps|
    ensures Get(ps, ps[i].0) == Some(ps[i].1)
  {
    if i > 0 {
      assert ps[1..][i - 1] == ps[i];
      GetUnique(ps[1..], i - 1);
    }
  }

  /** A found value is stored under its key in the list. */
  lemma {:induction false} GetFound<V>(ps: seq<(string, V)>, k: string)
    requires Get(ps, k).Some?
    ensures exists i :: 0 <= i < |ps| && ps[i] == (k, Get(ps, k).value)
  {
    if ps[0].0 != k {
      GetFound(ps[1..], k);
      var i :| 0 <= i < |ps[1..]| && ps[1..][i] == (k, Get(ps[1..], k).value);
      assert ps[i + 1] == ps[1..][i];
    }
  }

  /** Every entry after `d[k] = v` is the new entry or an old one. */
  lemma {:induction false} PutFrom<V>(ps: seq<(string, V)>, k: string, v: V)
    ensures forall i :: 0 <= i < |Put(ps, k, v)| ==> Put(ps, k, v)[i] == (k, v) || Put(ps, k, v)[i] in ps
  {
    if ps != [] && ps[0].0 != k {
      PutFrom(ps[1..], k, v);
      var r := Put(ps, k, v);
      forall i | 0 <= i < |r|
        ensures r[i] == (k, v) || r[i] in ps
      {
        if i > 0 {
          assert r[i] == Put(ps[1..], k, v)[i - 1];
          if r[i] in ps[1..] {
            var j :| 0 <= j < |ps[1..]| && ps[1..][j] == r[i];
            assert ps[j + 1] == r[i];
          }
        }
      }
    }
  }

  /** A key missing from the list reads as absent. */
  lemma GetMissing<V>(ps: seq<(string, V)>, k: string)
    requires forall i :: 0 <= i < |ps| ==> ps[i].0 != k
    ensures Get(ps, k) == None
  {
    assert k !in Keys(ps) by {
      forall i | 0 <= i < |ps|
        ensures Keys(ps)[i] != k
      {
      }
    }
  }

  /** The loop `for k, v in ps: d[k] = v`. */
  function PutAll<V>(acc: seq<(string, V)>, ps: seq<(string, V)>): seq<(string, V)>
    decreases ps
  {
    if ps == [] then acc else PutAll(Put(acc, ps[0].0, ps[0].1), ps[1..])
  }

  /** No key of `ps` is a key of `acc`. */
  predicate Fresh<V>(ps: seq<(string, V)>, acc: seq<(string, V)>) {
    forall i, j :: 0 <= i < |ps| && 0 <= j < |acc| ==> ps[i].0 != acc[j].0
  }

  /** Assigning distinct fresh keys appends them in order. */
  lemma {:induction false} PutAllFresh<V>(acc: seq<(string, V)>, ps: seq<(string, V)>)
    requires UniqueKeys(ps) && Fresh(ps, acc)
    ensures PutAll(acc, ps) == acc + ps
    decreases ps
  {
    if ps != [] {
      var acc' := acc + [ps[0]];
      var rest := ps[1..];
      FreshStep(acc, ps);
      assert PutAll(acc, ps) == PutAll(acc', rest);
      PutAllFresh(acc', rest);
      assert acc' + rest == acc + ps by {
        assert ps == [ps[0]] + rest;
      }
    }
  }

  /** One step of `PutAllFresh`: the first key is appended and the rest stay
      distinct and fresh. */
  lemma FreshStep<V>(acc: seq<(string, V)>, ps: seq<(string, V)>)
    requires ps != [] && UniqueKeys(ps) && Fresh(ps, acc)
    ensures Put(acc, ps[0].0, ps[0].1) == acc + [ps[0]]
    ensures UniqueKeys(ps[1..]) && Fresh(ps[1..], acc + [ps[0]])
  {
    var k := ps[0].0;
    assert k !in Keys(acc) by {
      forall j | 0 <= j < |acc|
        ensures Keys(acc)[j] != k
      {
        assert ps[0].0 != acc[j].0;
      }
    }
    PutNew(acc, k, ps[0].1);
    var acc' := acc + [ps[0]];
    var rest := ps[1..];
    forall i, j | 0 <= i < |rest| && 0 <= j < |acc'|
      ensures rest[i].0 != acc'[j].0
    {
      assert rest[i] == ps[i + 1];
      if j < |acc| { assert acc'[j] == acc[j]; }
    }
    forall i, j | 0 <= i < j < |rest|
      ensures rest[i].0 != rest[j].0
    {
      assert rest[i] == ps[i + 1] && rest[j] == ps[j + 1];
    }
  }

  /** Assigning a key not yet present appends it. */
  lemma {:induction false} PutNew<V>(ps: seq<(string, V)>, k: string, v: V)
    requires k !in Keys(ps)
    ensures Put(ps, k, v) == ps + [(k, v)]
    decreases ps
  {
    if ps != [] {
      assert ps[0].0 == Keys(ps)[0];
      assert Keys(ps[1..]) == Keys(ps)[1..];
      PutNew(ps[1..], k, v);
      assert ps == [ps[0]] + ps[1..];
    }
  }

  // ---- key order ----

  /** No key occurs twice in a list of keys. */
  predicate NoDuplicates(ks: seq<string>) {
    forall i, j :: 0 <= i < j < |ks| ==> ks[i] != ks[j]
  }

  /** The keys of a dict holding the keys `acc` after the keys `ks` are
      assigned in turn: a key not yet present is appended, so each key sits
      where it first appears. */
  function AddKeys(acc: seq<string>, ks: seq<string>): seq<string>
    decreases ks
  {
    if ks == [] then acc else AddKeys(if ks[0] in acc then acc else acc + [ks[0]], ks[1..])
  }

  /** What `AddKeys` keeps: `acc` as a prefix, exactly the keys of `acc` and
      `ks`, and no repetition that `acc` does not already have. */
  lemma {:induction false} AddKeysSpec(acc: seq<string>, ks: seq<string>)
    ensures |acc| <= |AddKeys(acc, ks)| && AddKeys(acc, ks)[..|acc|] == acc
    ensures forall k :: k in AddKeys(acc, ks) <==> k in acc || k in ks
    ensures NoDuplicates(acc) ==> NoDuplicates(AddKeys(acc, ks))
    decreases ks
  {
    if ks != [] {
      var acc' := if ks[0] in acc then acc else acc + [ks[0]];
      AddKeysSpec(acc', ks[1..]);
      assert acc'[..|acc|] == acc;
      var r := AddKeys(acc, ks);
      assert r[..|acc|] == r[..|acc'|][..|acc|];
      assert ks == [ks[0]] + ks[1..];
      forall k
        ensures k in r <==> k in acc || k in ks
      {
        assert k in acc' <==> k in acc || k == ks[0];
      }
    }
  }

  /** Assigning two runs of keys is assigning the first, then the second. */
  lemma {:induction false} AddKeysAppend(acc: seq<string>, a: seq<string>, b: seq<string>)
    ensures AddKeys(acc, a + b) == AddKeys(AddKeys(acc, a), b)
    decreases a
  {
    if a == [] {
      assert a + b == b;
    } else {
      assert (a + b)[0] == a[0] && (a + b)[1..] == a[1..] + b;
      AddKeysAppend(if a[0] in acc then acc else acc + [a[0]], a[1..], b);
    }
  }

  /** One more key: appended exactly when it is new. */
  lemma AddKeysSnoc(acc: seq<string>, ks: seq<string>, k: string)
    ensures AddKeys(acc, ks + [k]) == if k in AddKeys(acc, ks) then AddKeys(acc, ks) else AddKeys(acc, ks) + [k]
  {
    AddKeysAppend(acc, ks, [k]);
  }

  /** Distinct keys none of which is present are appended in order. */
  lemma {:induction false} AddKeysFresh(acc: seq<string>, ks: seq<string>)
    requires NoDuplicates(ks) && forall i :: 0 <= i < |ks| ==> ks[i] !in acc
    ensures AddKeys(acc, ks) == acc + ks
    decreases ks
  {
    if ks != [] {
      var acc' := acc + [ks[0]];
      forall i | 0 <= i < |ks[1..]|
        ensures ks[1..][i] !in acc'
      {
        assert ks[1..][i] == ks[i + 1];
      }
      AddKeysFresh(acc', ks[1..]);
      assert acc' + ks[1..] == acc + ks;
    }
  }

  /** Unique keys are a duplicate-free key list. */
  lemma UniqueKeysList<V>(ps: seq<(string, V)>)
    ensures UniqueKeys(ps) <==> NoDuplicates(Keys(ps))
  {
    assert forall i :: 0 <= i < |ps| ==> Keys(ps)[i] == ps[i].0;
  }

  /** `d[k] = v` on the key list: a new key is appended. */
  lemma PutKeys<V>(ps: seq<(string, V)>, k: string, v: V)
    ensures Keys(Put(ps, k, v)) == AddKeys(Keys(ps), [k])
  {
  }
}
