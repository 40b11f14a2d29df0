/** Layered rules field by field: which of the versions of a rule its expression, durations, labels
    and annotations come from (`patchRule`, `mergeAlertConfigMaps`). */
module AlertFields {
  import opened Text
  import opened AlertRules

  /** The last of the values that are given, or else the base. */
  function Latest<T>(base: Option<T>, given: seq<Option<T>>): Option<T> {
    if given == [] then base
    else if given[|given| - 1].Some? then given[|given| - 1]
    else Latest(base, given[..|given| - 1])
  }

  /** The value that is given at `i` and nowhere later. */
  lemma {:induction false} LatestIs<T>(base: Option<T>, given: seq<Option<T>>, i: nat)
    requires i < |given| && given[i].Some? && forall j :: i < j < |given| ==> given[j].None?
    ensures Latest(base, given) == given[i]
  {
    var n := |given| - 1;
    if i < n {
      assert given[n].None?;
      LatestIs(base, given[..n], i);
    }
  }

  lemma {:induction false} LatestNone<T>(base: Option<T>, given: seq<Option<T>>)
    requires forall i :: 0 <= i < |given| ==> given[i].None?
    ensures Latest(base, given) == base
  {
    if given != [] { LatestNone(base, given[..|given| - 1]); }
  }

  lemma LatestSnoc<T>(base: Option<T>, given: seq<Option<T>>, x: Option<T>)
    ensures Latest(base, given + [x]) == if x.Some? then x else Latest(base, given)
  {
    assert (given + [x])[..|given|] == given;
  }

  // ----- the fields of a rule -----

  /** An expression counts as given if it has a text or a number. */
  function ExprOf(r: Rule): Option<Expr> {
    if r.expr.text == "" && r.expr.number == 0 then None else Some(r.expr)
  }

  function EntryOf(m: Option<map<string, string>>, k: string): Option<string> {
    if m.Some? && k in m.value then Some(m.value[k]) else None
  }

  function Exprs(rs: seq<Rule>): seq<Option<Expr>> { seq(|rs|, i requires 0 <= i < |rs| => ExprOf(rs[i])) }
  function Durations(rs: seq<Rule>): seq<Option<string>> { seq(|rs|, i requires 0 <= i < |rs| => rs[i].duration) }
  function Firings(rs: seq<Rule>): seq<Option<string>> { seq(|rs|, i requires 0 <= i < |rs| => rs[i].keepFiringFor) }
  function Labels(rs: seq<Rule>, k: string): seq<Option<string>> {
    seq(|rs|, i requires 0 <= i < |rs| => EntryOf(rs[i].labels, k))
  }
  function Notes(rs: seq<Rule>, k: string): seq<Option<string>> {
    seq(|rs|, i requires 0 <= i < |rs| => EntryOf(rs[i].annotations, k))
  }

  /** The fields of `r` are each the last one given among the versions, or else the base's. */
  ghost predicate Composed(r: Rule, base: Option<Rule>, versions: seq<Rule>) {
    ExprOf(r) == Latest(if base.Some? then ExprOf(base.value) else None, Exprs(versions)) &&
    r.duration == Latest(if base.Some? then base.value.duration else None, Durations(versions)) &&
    r.keepFiringFor == Latest(if base.Some? then base.value.keepFiringFor else None, Firings(versions)) &&
    (forall k :: EntryOf(r.labels, k) ==
      Latest(if base.Some? then EntryOf(base.value.labels, k) else None, Labels(versions, k))) &&
    (forall k :: EntryOf(r.annotations, k) ==
      Latest(if base.Some? then EntryOf(base.value.annotations, k) else None, Notes(versions, k))) &&
    MapsComposed(r, base, versions)
  }

  /** A map stays nil while neither the base nor any version has one; and the alert keeps its name. */
  ghost predicate MapsComposed(r: Rule, base: Option<Rule>, versions: seq<Rule>) {
    (r.labels.None? <==>
      (base.Some? ==> base.value.labels.None?) && forall i :: 0 <= i < |versions| ==> versions[i].labels.None?) &&
    (r.annotations.None? <==>
      (base.Some? ==> base.value.annotations.None?) && forall i :: 0 <= i < |versions| ==> versions[i].annotations.None?) &&
    r.alert == if base.Some? then base.value.alert else if versions != [] then versions[0].alert else r.alert
  }

  /** What one patch does, field by field. */
  lemma PatchFields(o: Rule, v: Rule, k: string)
    ensures ExprOf(Patch(o, v)) == if ExprOf(v).Some? then ExprOf(v) else ExprOf(o)
    ensures Patch(o, v).duration == if v.duration.Some? then v.duration else o.duration
    ensures Patch(o, v).keepFiringFor == if v.keepFiringFor.Some? then v.keepFiringFor else o.keepFiringFor
    ensures EntryOf(Patch(o, v).labels, k) == if EntryOf(v.labels, k).Some? then EntryOf(v.labels, k) else EntryOf(o.labels, k)
    ensures EntryOf(Patch(o, v).annotations, k) ==
            if EntryOf(v.annotations, k).Some? then EntryOf(v.annotations, k) else EntryOf(o.annotations, k)
    ensures Patch(o, v).labels.None? <==> o.labels.None? && v.labels.None?
    ensures Patch(o, v).annotations.None? <==> o.annotations.None? && v.annotations.None?
    ensures Patch(o, v).alert == o.alert
  {}

  lemma ComposedOne(v: Rule)
    ensures Composed(v, None, [v])
  {
    assert [v][..0] == [];
    LatestSnoc(None, [], ExprOf(v));
    assert Exprs([v]) == [] + [ExprOf(v)] && Durations([v]) == [] + [v.duration] && Firings([v]) == [] + [v.keepFiringFor];
    LatestSnoc(None, [], v.duration);
    LatestSnoc(None, [], v.keepFiringFor);
    forall k ensures EntryOf(v.labels, k) == Latest(None, Labels([v], k))
      ensures EntryOf(v.annotations, k) == Latest(None, Notes([v], k))
    {
      LatestSnoc(None, [], EntryOf(v.labels, k));
      LatestSnoc(None, [], EntryOf(v.annotations, k));
      assert Labels([v], k) == [] + [EntryOf(v.labels, k)] && Notes([v], k) == [] + [EntryOf(v.annotations, k)];
    }
  }

  lemma ComposedBase(b: Rule)
    ensures Composed(b, Some(b), [])
  {}

  lemma GivenSnoc(vs: seq<Rule>, v: Rule, k: string)
    ensures Exprs(vs + [v]) == Exprs(vs) + [ExprOf(v)] && Durations(vs + [v]) == Durations(vs) + [v.duration]
    ensures Firings(vs + [v]) == Firings(vs) + [v.keepFiringFor]
    ensures Labels(vs + [v], k) == Labels(vs, k) + [EntryOf(v.labels, k)]
    ensures Notes(vs + [v], k) == Notes(vs, k) + [EntryOf(v.annotations, k)]
  {}

  lemma MapsNext(r: Rule, base: Option<Rule>, vs: seq<Rule>, v: Rule)
    requires MapsComposed(r, base, vs) && (base.Some? || vs != [])
    ensures MapsComposed(Patch(r, v), base, vs + [v])
  {
    PatchFields(r, v, "");
    var more := vs + [v];
    assert forall i :: 0 <= i < |vs| ==> more[i] == vs[i];
    assert more[|vs|] == v;
  }

  lemma ComposedNext(r: Rule, base: Option<Rule>, vs: seq<Rule>, v: Rule)
    requires Composed(r, base, vs) && (base.Some? || vs != [])
    ensures Composed(Patch(r, v), base, vs + [v])
  {
    MapsNext(r, base, vs, v);
    PatchFields(r, v, "");
    GivenSnoc(vs, v, "");
    LatestSnoc(if base.Some? then ExprOf(base.value) else None, Exprs(vs), ExprOf(v));
    LatestSnoc(if base.Some? then base.value.duration else None, Durations(vs), v.duration);
    LatestSnoc(if base.Some? then base.value.keepFiringFor else None, Firings(vs), v.keepFiringFor);
    forall k ensures EntryOf(Patch(r, v).labels, k) ==
        Latest(if base.Some? then EntryOf(base.value.labels, k) else None, Labels(vs + [v], k))
      ensures EntryOf(Patch(r, v).annotations, k) ==
        Latest(if base.Some? then EntryOf(base.value.annotations, k) else None, Notes(vs + [v], k))
    {
      PatchFields(r, v, k);
      GivenSnoc(vs, v, k);
      LatestSnoc(if base.Some? then EntryOf(base.value.labels, k) else None, Labels(vs, k), EntryOf(v.labels, k));
      LatestSnoc(if base.Some? then EntryOf(base.value.annotations, k) else None, Notes(vs, k), EntryOf(v.annotations, k));
    }
  }

  /** A fold of versions has, field by field, the last value given. */
  lemma {:induction false} FoldComposes(base: Option<Rule>, versions: seq<Rule>)
    requires base.Some? || versions != []
    ensures Fold(base, versions).Some? && Composed(Fold(base, versions).value, base, versions)
  {
    if versions == [] {
      ComposedBase(base.value);
    } else {
      var n := |versions| - 1;
      var init, v := versions[..n], versions[n];
      assert versions == init + [v];
      if base.Some? || init != [] {
        FoldComposes(base, init);
        ComposedNext(Fold(base, init).value, base, init, v);
      } else {
        assert versions == [v];
        ComposedOne(v);
      }
    }
  }

  /** The same of the layered fold itself, whatever the order of the list. */
  lemma LayeredFields(t: Table, cms: seq<ConfigMap>, k: Key)
    requires Layered(t, cms, k).Some?
    ensures k.cluster == DEFAULT ==> Composed(Layered(t, cms, k).value, Get(t, k), Versions(cms, k))
    ensures k.cluster != DEFAULT ==>
      Versions(cms, k) != [] && Composed(Layered(t, cms, k).value, Layered(t, cms, DefaultKey(k)), Versions(cms, k))
  {
    if k.cluster == DEFAULT {
      FoldSome(Get(t, k), Versions(cms, k));
      FoldComposes(Get(t, k), Versions(cms, k));
    } else {
      FoldComposes(DefaultLayer(t, cms, DefaultKey(k)), Versions(cms, k));
    }
  }

  /** A merged rule of the default layer: each field is that of the last default ConfigMap that gives
      it, or else the PrometheusRule's. */
  lemma DefaultFields(t: Table, cms: seq<ConfigMap>, k: Key)
    requires DefaultsOnly(t) && DefaultsFirst(cms) && k.cluster == DEFAULT && k in MergeAll(t, cms)
    ensures Composed(MergeAll(t, cms)[k], Get(t, k), Versions(cms, k))
  {
    LayeredMerge(t, cms, k);
    FoldSome(Get(t, k), Versions(cms, k));
    FoldComposes(Get(t, k), Versions(cms, k));
  }

  /** A merged rule of a cluster: each field is that of the last of the cluster's ConfigMaps that gives
      it, or else that of the finished default rule. */
  lemma ClusterFields(t: Table, cms: seq<ConfigMap>, k: Key)
    requires DefaultsOnly(t) && DefaultsFirst(cms) && k.cluster != DEFAULT && k in MergeAll(t, cms)
    ensures Versions(cms, k) != []
    ensures Composed(MergeAll(t, cms)[k], Get(MergeAll(t, cms), DefaultKey(k)), Versions(cms, k))
  {
    LayeredMerge(t, cms, k);
    LayeredMerge(t, cms, DefaultKey(k));
    FoldComposes(DefaultLayer(t, cms, DefaultKey(k)), Versions(cms, k));
  }

  /** The versions of a rule are those of its cluster's ConfigMaps that have it, each under its own
      name, in list order. */
  lemma {:induction false} VersionsAre(cms: seq<ConfigMap>, k: Key, i: nat)
    requires i < |cms|
    ensures Versions(cms, k) ==
      Versions(cms[..i], k) +
      (if cms[i].cluster == k.cluster && k.group in cms[i].data && k.name in cms[i].data[k.group]
       then [cms[i].data[k.group][k.name].(alert := k.name)] else []) +
      Versions(cms[i + 1..], k)
    decreases |cms|
  {
    var n, init := |cms| - 1, cms[..|cms| - 1];
    if i == n {
      assert cms[i + 1..] == [] && cms[..i] == init;
    } else {
      VersionsAre(init, k, i);
      assert init[..i] == cms[..i] && init[i] == cms[i];
      var tail := cms[i + 1..];
      assert init[i + 1..] == tail[..|tail| - 1] && tail[|tail| - 1] == cms[n];
    }
  }

  // ----- the base -----

  predicate IsProm(p: PromRule, k: Key) { p.rule.alert != "" && p.group == k.group && p.rule.alert == k.name }

  /** The alerts of this group and name, without keep_firing_for. */
  function Offers(rules: seq<PromRule>, k: Key): seq<Option<Rule>> {
    seq(|rules|, i requires 0 <= i < |rules| =>
      if IsProm(rules[i], k) then Some(rules[i].rule.(keepFiringFor := None)) else None)
  }

  /** The default layer starts from the last alert of each group and name in the PrometheusRules, and
      no cluster layer starts from anything. */
  lemma {:induction false} PromAt(rules: seq<PromRule>, k: Key)
    ensures Get(PromTable(rules), k) == if k.cluster == DEFAULT then Latest(None, Offers(rules, k)) else None
  {
    if rules != [] {
      var n := |rules| - 1;
      PromAt(rules[..n], k);
      assert Offers(rules, k)[..n] == Offers(rules[..n], k);
    }
  }
}
