/** A list of pairs with distinct keys, read as a map. */
module BoundedMap {

  datatype Pair<K, V> = Pair(key: K, value: V)

  ghost predicate Unique<K, V>(ps: seq<Pair<K, V>>) {
    forall i, j :: 0 <= i < j < |ps| ==> ps[i].key != ps[j].key
  }

  ghost function AsMap<K, V>(ps: seq<Pair<K, V>>): map<K, V> {
    if ps == [] then map[] else AsMap(ps[..|ps| - 1])[ps[|ps| - 1].key := ps[|ps| - 1].value]
  }

  lemma {:induction false} KeyOfMap<K, V>(ps: seq<Pair<K, V>>, k: K)
    ensures k in AsMap(ps) <==> exists i :: 0 <= i < |ps| && ps[i].key == k
    decreases |ps|
  {
    if ps != [] {
      var n := |ps| - 1;
      KeyOfMap(ps[..n], k);
      if k in AsMap(ps[..n]) {
        var i :| 0 <= i < n && ps[..n][i].key == k;
        assert ps[i].key == k;
      }
      if i :| 0 <= i < |ps| && ps[i].key == k {
        if i < n { assert ps[..n][i].key == k; }
      }
    }
  }

  lemma {:induction false} Lookup<K, V>(ps: seq<Pair<K, V>>, i: nat)
    requires Unique(ps) && i < |ps|
    ensures ps[i].key in AsMap(ps) && AsMap(ps)[ps[i].key] == ps[i].value
    decreases |ps|
  {
    var n := |ps| - 1;
    if i < n {
      Lookup(ps[..n], i);
      assert ps[..n][i] == ps[i];
    }
  }

  lemma {:induction false} Size<K, V>(ps: seq<Pair<K, V>>)
    requires Unique(ps)
    ensures |AsMap(ps)| == |ps|
    decreases |ps|
  {
    if ps != [] {
      var n := |ps| - 1;
      Size(ps[..n]);
      KeyOfMap(ps[..n], ps[n].key);
      assert AsMap(ps).Keys == AsMap(ps[..n]).Keys + {ps[n].key};
    }
  }

  lemma {:induction false} AppendIsInsert<K, V>(ps: seq<Pair<K, V>>, p: Pair<K, V>)
    requires Unique(ps) && forall i :: 0 <= i < |ps| ==> ps[i].key != p.key
    ensures Unique(ps + [p]) && AsMap(ps + [p]) == AsMap(ps)[p.key := p.value]
  {
    assert (ps + [p])[..|ps|] == ps;
  }

  lemma {:induction false} ReplaceIsUpdate<K, V>(ps: seq<Pair<K, V>>, i: nat, v: V)
    requires Unique(ps) && i < |ps|
    ensures var ps' := ps[i := Pair(ps[i].key, v)];
            Unique(ps') && AsMap(ps') == AsMap(ps)[ps[i].key := v]
    decreases |ps|
  {
    var n := |ps| - 1;
    var ps' := ps[i := Pair(ps[i].key, v)];
    if i < n {
      ReplaceIsUpdate(ps[..n], i, v);
      assert ps'[..n] == ps[..n][i := Pair(ps[i].key, v)];
      assert ps[i].key != ps[n].key;
    } else {
      assert ps'[..n] == ps[..n];
    }
  }

  lemma {:induction false} RemoveIsDelete<K, V>(ps: seq<Pair<K, V>>, i: nat)
    requires Unique(ps) && i < |ps|
    ensures var ps' := ps[..i] + ps[i + 1..];
            Unique(ps') && AsMap(ps') == AsMap(ps) - {ps[i].key}
    decreases |ps|
  {
    var n := |ps| - 1;
    var ps' := ps[..i] + ps[i + 1..];
    if i < n {
      RemoveIsDelete(ps[..n], i);
      assert ps'[..n - 1] == ps[..n][..i] + ps[..n][i + 1..];
      assert ps'[n - 1] == ps[n];
      assert ps[..n][i] == ps[i];
      assert ps[i].key != ps[n].key;
    } else {
      assert ps' == ps[..n];
      KeyOfMap(ps[..n], ps[n].key);
    }
  }
}
