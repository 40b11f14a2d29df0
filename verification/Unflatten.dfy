/** Rebuilding nested objects from dotted keys (`setNested`, `unflattenExtra`), seen through the
    leaves of the tree that comes out. */
module Unflatten {
  import opened Text
  import opened CanonicalJson

  type Fields = map<string, Json>
  type Path = seq<string>

  /** setNested: assigns `value` at `parts`, creating objects on the way; a string that is in the
      way is replaced by an object. */
  function SetNested(m: Fields, parts: Path, value: string): Fields
    requires parts != []
    decreases |parts|
  {
    if |parts| == 1 then m[parts[0] := Str(value)]
    else m[parts[0] := Obj(SetNested(Sub(m, parts[0]), parts[1..], value))]
  }

  /** The object under `k`, or a new one. */
  function Sub(m: Fields, k: string): Fields {
    if k in m && m[k].Obj? then m[k].fields else map[]
  }

  /** The string at the leaf `path`, if there is one. */
  function Lookup(m: Fields, path: Path): Option<string>
    decreases |path|
  {
    if path == [] || path[0] !in m then None
    else if |path| == 1 then (if m[path[0]].Str? then Some(m[path[0]].s) else None)
    else Lookup(Sub(m, path[0]), path[1..])
  }

  lemma LookupEmpty(path: Path)
    ensures Lookup(map[], path) == None
  {}

  /** One is a proper prefix of the other. */
  predicate Clash(p: Path, q: Path) { p < q || q < p }

  /** What setNested does to every leaf: the new path gets its value, the leaves above and below it
      are lost, all others stay. */
  lemma {:induction false} LookupSet(m: Fields, p: Path, v: string, q: Path)
    requires p != []
    ensures Lookup(SetNested(m, p, v), q) ==
            if q == p then Some(v) else if q != [] && Clash(p, q) then None else Lookup(m, q)
    decreases |p|
  {
    if q != [] && q[0] == p[0] {
      assert p == [p[0]] + p[1..] && q == [q[0]] + q[1..];
      if |p| > 1 && |q| > 1 {
        LookupSet(Sub(m, p[0]), p[1..], v, q[1..]);
        assert p[1..] < q[1..] <==> p < q;
        assert q[1..] < p[1..] <==> q < p;
        if p[0] !in m { LookupEmpty(q[1..]); }
      } else if |p| == 1 && |q| > 1 {
        assert p < q;
        LookupEmpty(q[1..]);
      } else if |q| == 1 && |p| > 1 {
        assert q < p;
      }
    } else if q != [] {
      assert !Clash(p, q);
    }
  }

  /** A value that setNested can build: leaves are strings and no object is empty. */
  ghost predicate FullTree(v: Json)
    decreases v
  {
    v.Str? || (v.Obj? && v.fields != map[] && forall k :: k in v.fields ==> FullTree(v.fields[k]))
  }

  ghost predicate Full(m: Fields) { forall k :: k in m ==> FullTree(m[k]) }

  lemma {:induction false} SetFull(m: Fields, p: Path, v: string)
    requires p != [] && Full(m)
    ensures Full(SetNested(m, p, v)) && SetNested(m, p, v) != map[]
    decreases |p|
  {
    var n := SetNested(m, p, v);
    assert p[0] in n;
    if |p| > 1 {
      assert Full(Sub(m, p[0]));
      SetFull(Sub(m, p[0]), p[1..], v);
      assert FullTree(n[p[0]]);
    }
  }

  lemma {:induction false} SomeLeaf(v: Json) returns (path: Path)
    requires FullTree(v) && v.Obj?
    ensures path != [] && Lookup(v.fields, path).Some?
    decreases v
  {
    var k :| k in v.fields;
    if v.fields[k].Str? {
      path := [k];
    } else {
      var rest := SomeLeaf(v.fields[k]);
      path := [k] + rest;
      assert path[1..] == rest;
    }
  }

  /** The leaves determine the tree. */
  lemma {:induction false} LeavesDetermine(a: Json, b: Json)
    requires a.Obj? && b.Obj? && Full(a.fields) && Full(b.fields)
    requires forall path :: Lookup(a.fields, path) == Lookup(b.fields, path)
    ensures a == b
    decreases a
  {
    LeavesInclude(a, b);
    LeavesInclude(b, a);
    forall k | k in a.fields ensures a.fields[k] == b.fields[k] {
      var x, y := a.fields[k], b.fields[k];
      assert Lookup(a.fields, [k]) == Lookup(b.fields, [k]);
      if x.Obj? {
        forall path ensures Lookup(x.fields, path) == Lookup(y.fields, path) {
          if path != [] {
            assert ([k] + path)[1..] == path;
            assert Lookup(a.fields, [k] + path) == Lookup(b.fields, [k] + path);
          }
        }
        LeavesDetermine(x, y);
      }
    }
  }

  lemma LeavesInclude(a: Json, b: Json)
    requires a.Obj? && b.Obj? && Full(a.fields) && Full(b.fields)
    requires forall path :: Lookup(a.fields, path) == Lookup(b.fields, path)
    ensures a.fields.Keys <= b.fields.Keys
  {
    forall k | k in a.fields ensures k in b.fields {
      var path := [k];
      if a.fields[k].Obj? {
        var rest := SomeLeaf(a.fields[k]);
        path := [k] + rest;
        assert path[1..] == rest;
      }
      assert Lookup(a.fields, path).Some?;
    }
  }

  // ----- unflattenExtra -----

  function PathOf(key: string): (p: Path)
    ensures p != []
  {
    Split(key, '.')
  }

  /** setNested over keys in a given order. */
  function SetAll(f: map<string, string>, order: seq<string>): Fields
    requires forall i :: 0 <= i < |order| ==> order[i] in f
  {
    if order == [] then map[]
    else
      var last := order[|order| - 1];
      SetNested(SetAll(f, order[..|order| - 1]), PathOf(last), f[last])
  }

  /** No key's dotted path is a proper prefix of another's. */
  ghost predicate PrefixFree(keys: set<string>) {
    forall k, l :: k in keys && l in keys ==> !(PathOf(k) < PathOf(l))
  }

  /** The tree holds exactly the entries of `f` under `keys`, each at its dotted path. */
  ghost predicate Holds(m: Fields, f: map<string, string>, keys: set<string>)
    requires keys <= f.Keys
  {
    (forall k :: k in keys ==> Lookup(m, PathOf(k)) == Some(f[k])) &&
    forall path :: Lookup(m, path).Some? ==> exists k :: k in keys && PathOf(k) == path
  }

  lemma PathInjective(k: string, l: string)
    requires PathOf(k) == PathOf(l)
    ensures k == l
  {
    JoinSplit(k, '.');
    JoinSplit(l, '.');
  }

  lemma HoldsStep(m: Fields, f: map<string, string>, keys: set<string>, k: string)
    requires keys <= f.Keys && k in f && Holds(m, f, keys)
    requires PrefixFree(keys + {k})
    ensures Holds(SetNested(m, PathOf(k), f[k]), f, keys + {k})
  {
    var n := SetNested(m, PathOf(k), f[k]);
    forall l | l in keys + {k} ensures Lookup(n, PathOf(l)) == Some(f[l]) {
      LookupSet(m, PathOf(k), f[k], PathOf(l));
      if PathOf(l) == PathOf(k) { PathInjective(l, k); }
    }
    forall path | Lookup(n, path).Some? ensures exists l :: l in keys + {k} && PathOf(l) == path {
      LookupSet(m, PathOf(k), f[k], path);
      if path != PathOf(k) {
        var l :| l in keys && PathOf(l) == path;
        assert l in keys + {k};
      } else {
        assert k in keys + {k};
      }
    }
  }

  /** With prefix-free keys nothing is lost, whatever the order of the walk. */
  lemma {:induction false} SetAllHolds(f: map<string, string>, order: seq<string>)
    requires forall i :: 0 <= i < |order| ==> order[i] in f
    requires PrefixFree(Elements(order))
    ensures Full(SetAll(f, order)) && Holds(SetAll(f, order), f, Elements(order))
  {
    if order == [] {
      forall path ensures Lookup(map[], path) == None { LookupEmpty(path); }
    } else {
      var init, k := order[..|order| - 1], order[|order| - 1];
      assert order == init + [k];
      assert Elements(order) == Elements(init) + {k};
      SetAllHolds(f, init);
      HoldsStep(SetAll(f, init), f, Elements(init), k);
      SetFull(SetAll(f, init), PathOf(k), f[k]);
    }
  }

  /** The leaves of any tree are prefix-free. */
  lemma {:induction false} LeavesPrefixFree(m: Fields, p: Path, q: Path)
    requires Lookup(m, p).Some? && p < q
    ensures Lookup(m, q) == None
    decreases |p|
  {
    assert q[0] == p[0];
    if |p| == 1 {
      LookupEmpty(q[1..]);
    } else {
      assert p[1..] < q[1..];
      LeavesPrefixFree(Sub(m, p[0]), p[1..], q[1..]);
    }
  }

  /** Un-flattening keeps every entry, in every order of the walk, exactly when no key's dotted path
      is a proper prefix of another's. */
  lemma UnflattenLossless(f: map<string, string>, order: seq<string>)
    requires Elements(order) <= f.Keys
    ensures Holds(SetAllOf(f, order), f, Elements(order)) <==> PrefixFree(Elements(order))
  {
    ElementsIn(order, f.Keys);
    if PrefixFree(Elements(order)) {
      SetAllHolds(f, order);
    }
    if Holds(SetAllOf(f, order), f, Elements(order)) {
      forall k, l | k in Elements(order) && l in Elements(order) ensures !(PathOf(k) < PathOf(l)) {
        if PathOf(k) < PathOf(l) { LeavesPrefixFree(SetAllOf(f, order), PathOf(k), PathOf(l)); }
      }
    }
  }

  function SetAllOf(f: map<string, string>, order: seq<string>): Fields
    requires Elements(order) <= f.Keys
  {
    ElementsIn(order, f.Keys);
    SetAll(f, order)
  }

  lemma ElementsIn(order: seq<string>, keys: set<string>)
    requires Elements(order) <= keys
    ensures forall i :: 0 <= i < |order| ==> order[i] in keys
  {
    forall i | 0 <= i < |order| ensures order[i] in keys { assert order[i] in Elements(order); }
  }

  /** Two walks over the same prefix-free keys give the same tree. */
  lemma WalksAgree(f: map<string, string>, order: seq<string>, order': seq<string>)
    requires Elements(order) <= f.Keys && Elements(order) == Elements(order')
    requires PrefixFree(Elements(order))
    ensures SetAllOf(f, order) == SetAllOf(f, order')
  {
    ElementsIn(order, f.Keys);
    ElementsIn(order', f.Keys);
    SetAllHolds(f, order);
    SetAllHolds(f, order');
    var a, b := SetAllOf(f, order), SetAllOf(f, order');
    HoldsAgree(a, b, f, Elements(order));
    LeavesDetermine(Obj(a), Obj(b));
  }

  /** When one key's path is a proper prefix of another's, the later of the two wins. */
  lemma LaterWins(f: map<string, string>, keys: set<string>, k: string, l: string) returns (order: seq<string>)
    requires keys <= f.Keys && k in keys && l in keys && k != l && Clash(PathOf(k), PathOf(l))
    ensures Walk(order, keys)
    ensures Lookup(SetAllOf(f, order), PathOf(k)) == None && Lookup(SetAllOf(f, order), PathOf(l)) == Some(f[l])
  {
    var rest := WalkEnding(keys, k, l);
    order := rest + [k] + [l];
    LastWriteWins(f, order, |order| - 1);
    LastWriteWins(f, order, |order| - 2);
  }

  /** The tree does not depend on the order of the walk exactly when no key's dotted path is a proper
      prefix of another's. */
  lemma UnflattenOrderFree(f: map<string, string>, keys: set<string>)
    requires keys <= f.Keys
    ensures (forall order, order' :: Walk(order, keys) && Walk(order', keys) ==> SetAllOf(f, order) == SetAllOf(f, order'))
            <==> PrefixFree(keys)
  {
    if PrefixFree(keys) {
      forall order, order' | Walk(order, keys) && Walk(order', keys) ensures SetAllOf(f, order) == SetAllOf(f, order') {
        WalksAgree(f, order, order');
      }
    } else {
      var k, l :| k in keys && l in keys && PathOf(k) < PathOf(l);
      var a := LaterWins(f, keys, k, l);
      var b := LaterWins(f, keys, l, k);
      assert SetAllOf(f, a) != SetAllOf(f, b);
    }
  }

  /** A key whose value no later key of the walk cuts off. */
  predicate Unharmed(order: seq<string>, i: nat)
    requires i < |order|
  {
    forall j :: i < j < |order| ==> !Clash(PathOf(order[i]), PathOf(order[j]))
  }

  /** For any keys and any walk: a value is kept exactly when no later key clashes with its path. */
  lemma {:induction false} LastWriteWins(f: map<string, string>, order: seq<string>, i: nat)
    requires Elements(order) <= f.Keys && Walk(order, Elements(order)) && i < |order|
    ensures order[i] in f
    ensures Lookup(SetAllOf(f, order), PathOf(order[i])) == if Unharmed(order, i) then Some(f[order[i]]) else None
    decreases |order|
  {
    ElementsIn(order, f.Keys);
    var n := |order| - 1;
    var init, last := order[..n], order[n];
    assert order == init + [last];
    assert Elements(init) <= Elements(order);
    LookupSet(SetAllOf(f, init), PathOf(last), f[last], PathOf(order[i]));
    if i < n {
      assert init[i] == order[i];
      LastWriteWins(f, init, i);
      if PathOf(order[i]) == PathOf(last) { PathInjective(order[i], last); }
      assert Unharmed(order, i) <==> Unharmed(init, i) && !Clash(PathOf(order[i]), PathOf(last));
    }
  }

  /** Un-flattening invents nothing: every leaf is the value of a key with that path. */
  lemma {:induction false} LeafFromKey(f: map<string, string>, order: seq<string>, path: Path) returns (i: nat)
    requires Elements(order) <= f.Keys && Lookup(SetAllOf(f, order), path).Some?
    ensures i < |order| && PathOf(order[i]) == path && order[i] in f && Lookup(SetAllOf(f, order), path) == Some(f[order[i]])
  {
    i := 0;
    ElementsIn(order, f.Keys);
    if order == [] {
      LookupEmpty(path);
    } else {
      var n := |order| - 1;
      var init, last := order[..n], order[n];
      assert order == init + [last] && Elements(init) <= Elements(order);
      LookupSet(SetAllOf(f, init), PathOf(last), f[last], path);
      if path == PathOf(last) { i := n; } else { i := LeafFromKey(f, init, path); }
    }
  }

  lemma HoldsAgree(a: Fields, b: Fields, f: map<string, string>, keys: set<string>)
    requires keys <= f.Keys && Holds(a, f, keys) && Holds(b, f, keys)
    ensures forall path :: Lookup(a, path) == Lookup(b, path)
  {
    forall path ensures Lookup(a, path) == Lookup(b, path) {
      if k :| k in keys && PathOf(k) == path {
      }
    }
  }

  lemma SetAllSnoc(f: map<string, string>, order: seq<string>, k: string)
    requires Elements(order) <= f.Keys && k in f
    ensures Elements(order + [k]) == Elements(order) + {k}
    ensures SetAllOf(f, order + [k]) == SetNested(SetAllOf(f, order), PathOf(k), f[k])
  {
    ElementsIn(order, f.Keys);
    assert (order + [k])[..|order|] == order;
  }

  lemma WalkHolds(f: map<string, string>, order: seq<string>, keys: set<string>)
    requires keys <= f.Keys && Elements(order) == keys
    ensures PrefixFree(keys) ==> Full(SetAllOf(f, order)) && Holds(SetAllOf(f, order), f, keys)
  {
    ElementsIn(order, f.Keys);
    if PrefixFree(keys) { SetAllHolds(f, order); }
  }

  lemma Walked(keys: set<string>, todo: set<string>, known: set<string>, k: string)
    requires todo <= keys && k in todo
    ensures keys - (todo - {k}) - known == (keys - todo - known) + (if k in known then {} else {k})
  {}

  /** unflattenExtra: walks the map in whatever order Go yields its keys, skipping the known ones. */
  method UnflattenExtra(f: map<string, string>, known: set<string>) returns (nested: Fields, ghost order: seq<string>)
    ensures Walk(order, f.Keys - known)
    ensures nested == SetAllOf(f, order)
    ensures PrefixFree(f.Keys - known) ==> Full(nested) && Holds(nested, f, f.Keys - known)
  {
    nested := map[];
    order := [];
    var todo := f.Keys;
    while todo != {}
      invariant todo <= f.Keys
      invariant Walk(order, f.Keys - todo - known)
      invariant Elements(order) <= f.Keys && nested == SetAllOf(f, order)
      decreases |todo|
    {
      var k :| k in todo;
      Walked(f.Keys, todo, known, k);
      if k !in known {
        SetAllSnoc(f, order, k);
        WalkSnoc(order, f.Keys - todo - known, k);
        nested := SetNested(nested, PathOf(k), f[k]);
        order := order + [k];
      }
      todo := todo - {k};
    }
    assert f.Keys - todo - known == f.Keys - known;
    WalkHolds(f, order, f.Keys - known);
  }
}
