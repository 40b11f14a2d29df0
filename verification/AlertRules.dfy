/** Layered alert rules (`getConfigMaps`, `mergePrometheusRules`, `mergeAlertConfigMaps`, `patchRule`,
    `getAlertFiles`), on values: what the nested maps hold, rule by rule. AlertHeap has the same
    merge on heap objects. */
module AlertRules {
  import opened Text

  const DEFAULT := ""

  /** An expression is a string or an integer; the zero value of both means "not given". */
  datatype Expr = Expr(text: string, number: int)

  /** `None` is Go's nil. */
  datatype Rule = Rule(
    alert: string, expr: Expr, duration: Option<string>, keepFiringFor: Option<string>,
    labels: Option<map<string, string>>, annotations: Option<map<string, string>>)

  /** The path of a rule through the nested maps. */
  datatype Key = Key(cluster: string, group: string, name: string)

  type Table = map<Key, Rule>

  /** A ConfigMap with its cluster name label. */
  datatype Labelled<D> = Labelled(cluster: string, data: D)

  /** With its YAML decoded: groups of named rules. */
  type ConfigMap = Labelled<map<string, map<string, Rule>>>

  /** As it is read: a group whose YAML does not decode has no rules. */
  type Source = Labelled<map<string, Option<map<string, Rule>>>>

  function Overlay(base: Option<map<string, string>>, patch: Option<map<string, string>>): Option<map<string, string>> {
    match patch
    case None => base
    case Some(m) => Some((if base.Some? then base.value else map[]) + m)
  }

  /** patchRule: what is given replaces, labels and annotations are laid over. */
  function Patch(base: Rule, r: Rule): Rule {
    base.(expr := if r.expr.text != "" || r.expr.number != 0 then r.expr else base.expr,
          duration := if r.duration.Some? then r.duration else base.duration,
          keepFiringFor := if r.keepFiringFor.Some? then r.keepFiringFor else base.keepFiringFor,
          labels := Overlay(base.labels, r.labels),
          annotations := Overlay(base.annotations, r.annotations))
  }

  function DefaultKey(k: Key): Key { k.(cluster := DEFAULT) }

  /** What one ConfigMap rule becomes, given the table so far. */
  function Merged(t: Table, k: Key, v: Rule): Rule {
    var r := v.(alert := k.name);
    if k in t then Patch(t[k], r)
    else if k.cluster != DEFAULT && DefaultKey(k) in t then Patch(t[DefaultKey(k)], r)
    else r
  }

  function MergeOne(t: Table, k: Key, v: Rule): Table { t[k := Merged(t, k, v)] }

  function RuleIn(cm: ConfigMap, k: Key): Option<Rule> {
    if k.cluster == cm.cluster && k.group in cm.data && k.name in cm.data[k.group]
    then Some(cm.data[k.group][k.name]) else None
  }

  function KeysOf(cm: ConfigMap): set<Key> {
    set g, n | g in cm.data && n in cm.data[g] :: Key(cm.cluster, g, n)
  }

  lemma KeysOfRuleIn(cm: ConfigMap, k: Key)
    ensures k in KeysOf(cm) <==> RuleIn(cm, k).Some?
  {}

  /** The table once the rules `done` of a ConfigMap have been merged, whatever their order. */
  function Partial(t: Table, cm: ConfigMap, done: set<Key>): Table
    requires done <= KeysOf(cm)
  {
    map k | k in t.Keys + done ::
      if k in done then (KeysOfRuleIn(cm, k); Merged(t, k, RuleIn(cm, k).value)) else t[k]
  }

  function MergeMap(t: Table, cm: ConfigMap): Table { Partial(t, cm, KeysOf(cm)) }

  /** One more rule of a ConfigMap: its own earlier rules do not matter to it. */
  lemma PartialStep(t: Table, cm: ConfigMap, done: set<Key>, k: Key)
    requires done <= KeysOf(cm) && k in KeysOf(cm) && k !in done
    ensures RuleIn(cm, k).Some?
    ensures MergeOne(Partial(t, cm, done), k, RuleIn(cm, k).value) == Partial(t, cm, done + {k})
  {
    KeysOfRuleIn(cm, k);
    var p := Partial(t, cm, done);
    if k.cluster != DEFAULT {
      assert DefaultKey(k) !in KeysOf(cm);
    }
    assert Merged(p, k, RuleIn(cm, k).value) == Merged(t, k, RuleIn(cm, k).value);
  }

  /** All ConfigMaps, in list order. */
  function MergeAll(t: Table, cms: seq<ConfigMap>): Table {
    if cms == [] then t else MergeMap(MergeAll(t, cms[..|cms| - 1]), cms[|cms| - 1])
  }

  // ----- the simple form: one fold per rule -----

  /** The versions of one rule in its cluster's ConfigMaps, in list order. */
  function Versions(cms: seq<ConfigMap>, k: Key): seq<Rule> {
    if cms == [] then []
    else
      var last := RuleIn(cms[|cms| - 1], k);
      Versions(cms[..|cms| - 1], k) + if last.Some? then [last.value.(alert := k.name)] else []
  }

  /** The first version stands where there is no base; all others patch what is there. */
  function Fold(base: Option<Rule>, versions: seq<Rule>): Option<Rule> {
    if versions == [] then base
    else
      var before := Fold(base, versions[..|versions| - 1]);
      var v := versions[|versions| - 1];
      Some(if before.Some? then Patch(before.value, v) else v)
  }

  function Get(t: Table, k: Key): Option<Rule> { if k in t then Some(t[k]) else None }

  /** The default layer patches the PrometheusRules; a cluster layer patches the finished default
      rule, and exists only where the cluster has a version of its own. */
  function Layered(t: Table, cms: seq<ConfigMap>, k: Key): Option<Rule> {
    if k.cluster == DEFAULT then DefaultLayer(t, cms, k)
    else if Versions(cms, k) == [] then None
    else Fold(DefaultLayer(t, cms, DefaultKey(k)), Versions(cms, k))
  }

  function DefaultLayer(t: Table, cms: seq<ConfigMap>, k: Key): Option<Rule> {
    Fold(Get(t, k), Versions(cms, k))
  }

  predicate DefaultsFirst<D>(cms: seq<Labelled<D>>) {
    forall i, j :: 0 <= i < j < |cms| && cms[j].cluster == DEFAULT ==> cms[i].cluster == DEFAULT
  }

  predicate DefaultsOnly(t: Table) { forall k :: k in t ==> k.cluster == DEFAULT }

  lemma MergeMapAt(t: Table, cm: ConfigMap, k: Key)
    ensures Get(MergeMap(t, cm), k) ==
            if RuleIn(cm, k).Some? then Some(Merged(t, k, RuleIn(cm, k).value)) else Get(t, k)
  {
    KeysOfRuleIn(cm, k);
  }

  lemma FoldSnoc(base: Option<Rule>, versions: seq<Rule>, v: Rule)
    ensures Fold(base, versions + [v]) ==
            Some(if Fold(base, versions).Some? then Patch(Fold(base, versions).value, v) else v)
  {
    assert (versions + [v])[..|versions|] == versions;
  }

  lemma {:induction false} FoldSome(base: Option<Rule>, versions: seq<Rule>)
    ensures Fold(base, versions).Some? <==> base.Some? || versions != []
  {
    if versions != [] { FoldSome(base, versions[..|versions| - 1]); }
  }

  /** Before any cluster's ConfigMap comes, no default rule is still to be changed. */
  lemma {:induction false} NoDefaultsAfter(cms: seq<ConfigMap>, k: Key, i: nat)
    requires DefaultsFirst(cms) && i < |cms| && cms[i].cluster != DEFAULT && k.cluster == DEFAULT
    ensures Versions(cms, k) == Versions(cms[..i], k)
    decreases |cms|
  {
    var init := cms[..|cms| - 1];
    if i < |cms| - 1 {
      NoDefaultsAfter(init, k, i);
      assert init[..i] == cms[..i];
    }
    assert cms[|cms| - 1].cluster != DEFAULT;
    assert Versions(init, k) + [] == Versions(init, k);
  }

  /** The last ConfigMap has a version of a default rule. */
  lemma DefaultStep(t: Table, cms: seq<ConfigMap>, k: Key)
    requires cms != [] && k.cluster == DEFAULT && RuleIn(cms[|cms| - 1], k).Some?
    requires Get(MergeAll(t, cms[..|cms| - 1]), k) == DefaultLayer(t, cms[..|cms| - 1], k)
    ensures Get(MergeAll(t, cms), k) == DefaultLayer(t, cms, k)
  {
    var init, cm := cms[..|cms| - 1], cms[|cms| - 1];
    MergeMapAt(MergeAll(t, init), cm, k);
    FoldSnoc(Get(t, k), Versions(init, k), RuleIn(cm, k).value.(alert := k.name));
  }

  /** The last ConfigMap has a version of a cluster's rule. */
  lemma ClusterStep(t: Table, cms: seq<ConfigMap>, k: Key)
    requires DefaultsFirst(cms) && cms != [] && k.cluster != DEFAULT && RuleIn(cms[|cms| - 1], k).Some?
    requires Get(MergeAll(t, cms[..|cms| - 1]), k) == Layered(t, cms[..|cms| - 1], k)
    requires Get(MergeAll(t, cms[..|cms| - 1]), DefaultKey(k)) == DefaultLayer(t, cms[..|cms| - 1], DefaultKey(k))
    ensures Get(MergeAll(t, cms), k) == Layered(t, cms, k)
  {
    var init, cm := cms[..|cms| - 1], cms[|cms| - 1];
    var base := DefaultLayer(t, init, DefaultKey(k));
    MergeMapAt(MergeAll(t, init), cm, k);
    NoDefaultsAfter(cms, DefaultKey(k), |cms| - 1);
    FoldSnoc(base, Versions(init, k), RuleIn(cm, k).value.(alert := k.name));
    FoldSome(base, Versions(init, k));
  }

  /** The last ConfigMap says nothing of the rule. */
  lemma OtherStep(t: Table, cms: seq<ConfigMap>, k: Key)
    requires DefaultsFirst(cms) && cms != [] && RuleIn(cms[|cms| - 1], k).None?
    requires Get(MergeAll(t, cms[..|cms| - 1]), k) == Layered(t, cms[..|cms| - 1], k)
    ensures Get(MergeAll(t, cms), k) == Layered(t, cms, k)
  {
    var init := cms[..|cms| - 1];
    MergeMapAt(MergeAll(t, init), cms[|cms| - 1], k);
    assert Versions(init, k) + [] == Versions(init, k);
    if k.cluster != DEFAULT { DefaultSettled(t, cms, k); }
  }

  /** The nested merge refines the fold: rule by rule, the table holds the base patched by that
      cluster's ConfigMaps in list order. */
  lemma {:induction false} LayeredMerge(t: Table, cms: seq<ConfigMap>, k: Key)
    requires DefaultsOnly(t) && DefaultsFirst(cms)
    ensures Get(MergeAll(t, cms), k) == Layered(t, cms, k)
  {
    if cms != [] {
      var init := cms[..|cms| - 1];
      LayeredMerge(t, init, k);
      LayeredMerge(t, init, DefaultKey(k));
      if RuleIn(cms[|cms| - 1], k).None? {
        OtherStep(t, cms, k);
      } else if k.cluster == DEFAULT {
        DefaultStep(t, cms, k);
      } else {
        ClusterStep(t, cms, k);
      }
    }
  }

  /** Where a cluster already has a version, the default rule below it is final. */
  lemma DefaultSettled(t: Table, cms: seq<ConfigMap>, k: Key)
    requires DefaultsFirst(cms) && cms != [] && k.cluster != DEFAULT
    ensures Versions(cms[..|cms| - 1], k) != [] ==>
      DefaultLayer(t, cms, DefaultKey(k)) == DefaultLayer(t, cms[..|cms| - 1], DefaultKey(k))
  {
    var init := cms[..|cms| - 1];
    if Versions(init, k) != [] {
      var i := SomeVersion(init, k);
      NoDefaultsAfter(cms, DefaultKey(k), i);
      NoDefaultsAfter(init, DefaultKey(k), i);
      assert init[..i] == cms[..i];
    }
  }

  lemma {:induction false} SomeVersion(cms: seq<ConfigMap>, k: Key) returns (i: nat)
    requires Versions(cms, k) != []
    ensures i < |cms| && cms[i].cluster == k.cluster
  {
    i := |cms| - 1;
    if RuleIn(cms[i], k).None? { i := SomeVersion(cms[..i], k); }
  }

  // ----- the order of the list -----

  function OfCluster<D>(cms: seq<Labelled<D>>, cluster: string): seq<Labelled<D>> {
    if cms == [] then []
    else OfCluster(cms[..|cms| - 1], cluster) + if cms[|cms| - 1].cluster == cluster then [cms[|cms| - 1]] else []
  }

  lemma {:induction false} VersionsOfCluster(cms: seq<ConfigMap>, k: Key)
    ensures Versions(cms, k) == Versions(OfCluster(cms, k.cluster), k)
  {
    if cms != [] {
      var init, cm := cms[..|cms| - 1], cms[|cms| - 1];
      VersionsOfCluster(init, k);
      var sub := OfCluster(init, k.cluster);
      if cm.cluster == k.cluster {
        assert (sub + [cm])[..|sub|] == sub;
      } else {
        assert sub + [] == sub;
        assert Versions(init, k) + [] == Versions(init, k);
      }
    }
  }

  /** Lists that agree cluster by cluster give the same rules: how the ConfigMaps of different
      clusters are interleaved does not matter. */
  lemma LayeredOrderFree(t: Table, cms: seq<ConfigMap>, cms': seq<ConfigMap>, k: Key)
    requires forall c :: OfCluster(cms, c) == OfCluster(cms', c)
    ensures Layered(t, cms, k) == Layered(t, cms', k)
  {
    VersionsOfCluster(cms, k);
    VersionsOfCluster(cms', k);
    VersionsOfCluster(cms, DefaultKey(k));
    VersionsOfCluster(cms', DefaultKey(k));
  }

  /** The ConfigMaps that are not default. */
  function Specific<D>(cms: seq<Labelled<D>>): (r: seq<Labelled<D>>)
    ensures forall j :: 0 <= j < |r| ==> r[j].cluster != DEFAULT
  {
    if cms == [] then []
    else Specific(cms[..|cms| - 1]) + if cms[|cms| - 1].cluster == DEFAULT then [] else [cms[|cms| - 1]]
  }

  lemma {:induction false} SpecificOfCluster<D>(cms: seq<Labelled<D>>, c: string)
    requires c != DEFAULT
    ensures OfCluster(Specific(cms), c) == OfCluster(cms, c)
  {
    if cms != [] {
      var init, cm := cms[..|cms| - 1], cms[|cms| - 1];
      SpecificOfCluster(init, c);
      if cm.cluster != DEFAULT { OfClusterConcat(Specific(init), [cm], c); } else { assert Specific(init) + [] == Specific(init); }
    }
  }

  lemma {:induction false} DefaultsOfCluster<D>(cms: seq<Labelled<D>>)
    ensures forall j :: 0 <= j < |OfCluster(cms, DEFAULT)| ==> OfCluster(cms, DEFAULT)[j].cluster == DEFAULT
  {
    if cms != [] { DefaultsOfCluster(cms[..|cms| - 1]); }
  }

  /** getConfigMaps: default ConfigMaps are moved to the front, both parts keep their order. */
  method GetConfigMaps<D>(items: seq<Labelled<D>>) returns (cms: seq<Labelled<D>>)
    ensures DefaultsFirst(cms)
    ensures forall c :: OfCluster(cms, c) == OfCluster(items, c)
  {
    var defaults: seq<Labelled<D>>, clusters: seq<Labelled<D>> := [], [];
    var i := 0;
    while i < |items|
      invariant 0 <= i <= |items|
      invariant defaults == OfCluster(items[..i], DEFAULT) && clusters == Specific(items[..i])
    {
      assert items[..i + 1][..i] == items[..i];
      if items[i].cluster == DEFAULT {
        defaults := defaults + [items[i]];
      } else {
        clusters := clusters + [items[i]];
      }
      i := i + 1;
    }
    assert items[..i] == items;
    DefaultsOfCluster(items);
    cms := defaults + clusters;
    forall c ensures OfCluster(cms, c) == OfCluster(items, c) {
      PartsOfCluster(defaults, clusters, c);
      if c != DEFAULT { SpecificOfCluster(items, c); }
    }
  }

  lemma {:induction false} OfClusterConcat<D>(a: seq<Labelled<D>>, b: seq<Labelled<D>>, c: string)
    ensures OfCluster(a + b, c) == OfCluster(a, c) + OfCluster(b, c)
  {
    if b == [] {
      assert a + b == a;
    } else {
      assert (a + b)[..|a + b| - 1] == a + b[..|b| - 1];
      OfClusterConcat(a, b[..|b| - 1], c);
    }
  }

  lemma {:induction false} OfClusterUniform<D>(a: seq<Labelled<D>>, c: string, same: bool)
    requires forall j :: 0 <= j < |a| ==> (a[j].cluster == c <==> same)
    ensures OfCluster(a, c) == if same then a else []
  {
    if a != [] {
      OfClusterUniform(a[..|a| - 1], c, same);
      assert a == a[..|a| - 1] + [a[|a| - 1]];
    }
  }

  lemma PartsOfCluster<D>(defaults: seq<Labelled<D>>, clusters: seq<Labelled<D>>, c: string)
    requires forall j :: 0 <= j < |defaults| ==> defaults[j].cluster == DEFAULT
    requires forall j :: 0 <= j < |clusters| ==> clusters[j].cluster != DEFAULT
    ensures OfCluster(defaults + clusters, c) == if c == DEFAULT then defaults else OfCluster(clusters, c)
  {
    OfClusterConcat(defaults, clusters, c);
    OfClusterUniform(defaults, c, c == DEFAULT);
    if c == DEFAULT { OfClusterUniform(clusters, c, false); }
  }

  /** From the listed ConfigMaps to the table: whatever order they were listed in, every rule is its
      base patched by its own cluster's ConfigMaps in that order. */
  lemma MergedRule(t: Table, items: seq<ConfigMap>, cms: seq<ConfigMap>, k: Key)
    requires DefaultsOnly(t) && DefaultsFirst(cms) && forall c :: OfCluster(cms, c) == OfCluster(items, c)
    ensures Get(MergeAll(t, cms), k) == Layered(t, items, k)
  {
    LayeredMerge(t, cms, k);
    LayeredOrderFree(t, cms, items, k);
  }

  // ----- decoding -----

  predicate Decodes(src: Source) { forall g :: g in src.data ==> src.data[g].Some? }

  predicate AllDecode(srcs: seq<Source>) { forall i :: 0 <= i < |srcs| ==> Decodes(srcs[i]) }

  function Decoded(src: Source): ConfigMap
    requires Decodes(src)
  {
    Labelled(src.cluster, map g | g in src.data :: src.data[g].value)
  }

  function DecodedAll(srcs: seq<Source>): seq<ConfigMap>
    requires AllDecode(srcs)
  {
    seq(|srcs|, i requires 0 <= i < |srcs| => Decoded(srcs[i]))
  }

  /** A decoded ConfigMap has the same cluster, groups and rules. */
  lemma DecodedMeans(srcs: seq<Source>, i: nat)
    requires AllDecode(srcs) && i < |srcs|
    ensures |DecodedAll(srcs)| == |srcs|
    ensures var cm := DecodedAll(srcs)[i];
      cm.cluster == srcs[i].cluster && cm.data.Keys == srcs[i].data.Keys &&
      forall g :: g in srcs[i].data ==> srcs[i].data[g] == Some(cm.data[g])
  {}

  lemma {:induction false} InOfCluster<D>(cms: seq<Labelled<D>>, x: Labelled<D>)
    ensures x in cms <==> x in OfCluster(cms, x.cluster)
  {
    if cms != [] {
      InOfCluster(cms[..|cms| - 1], x);
      assert cms == cms[..|cms| - 1] + [cms[|cms| - 1]];
    }
  }

  lemma SameMembers<D(!new)>(cms: seq<Labelled<D>>, items: seq<Labelled<D>>)
    requires forall c :: OfCluster(cms, c) == OfCluster(items, c)
    ensures forall x :: x in cms <==> x in items
  {
    forall x ensures x in cms <==> x in items {
      InOfCluster(cms, x);
      InOfCluster(items, x);
    }
  }

  lemma SameDecode(cms: seq<Source>, items: seq<Source>)
    requires forall c :: OfCluster(cms, c) == OfCluster(items, c)
    ensures AllDecode(cms) <==> AllDecode(items)
  {
    SameMembers(cms, items);
    assert AllDecode(cms) <==> forall x :: x in cms ==> Decodes(x);
    assert AllDecode(items) <==> forall x :: x in items ==> Decodes(x);
  }

  lemma DecodedAllSnoc(srcs: seq<Source>, src: Source)
    requires AllDecode(srcs) && Decodes(src)
    ensures AllDecode(srcs + [src]) && DecodedAll(srcs + [src]) == DecodedAll(srcs) + [Decoded(src)]
  {}

  lemma OfClusterSnoc<D>(cms: seq<Labelled<D>>, x: Labelled<D>, c: string)
    ensures OfCluster(cms + [x], c) == OfCluster(cms, c) + if x.cluster == c then [x] else []
  {
    assert (cms + [x])[..|cms|] == cms;
  }

  lemma {:induction false} DecodedOfCluster(srcs: seq<Source>, c: string)
    requires AllDecode(srcs)
    ensures AllDecode(OfCluster(srcs, c)) && OfCluster(DecodedAll(srcs), c) == DecodedAll(OfCluster(srcs, c))
  {
    if srcs != [] {
      var init, last := srcs[..|srcs| - 1], srcs[|srcs| - 1];
      DecodedOfCluster(init, c);
      DecodedAllSnoc(init, last);
      OfClusterSnoc(init, last, c);
      OfClusterSnoc(DecodedAll(init), Decoded(last), c);
      DecodedAllSnoc(OfCluster(init, c), last);
      assert srcs == init + [last];
    }
  }

  /** Moving ConfigMaps about does not change what is decoded for any cluster. */
  lemma SameDecoded(cms: seq<Source>, items: seq<Source>)
    requires (forall c :: OfCluster(cms, c) == OfCluster(items, c)) && AllDecode(cms) && AllDecode(items)
    ensures forall c :: OfCluster(DecodedAll(cms), c) == OfCluster(DecodedAll(items), c)
    ensures DefaultsFirst(cms) ==> DefaultsFirst(DecodedAll(cms))
  {
    forall c ensures OfCluster(DecodedAll(cms), c) == OfCluster(DecodedAll(items), c) {
      DecodedOfCluster(cms, c);
      DecodedOfCluster(items, c);
    }
  }

  // ----- the base: PrometheusRules -----

  datatype PromRule = PromRule(group: string, rule: Rule)

  function WithProm(t: Table, p: PromRule): Table {
    if p.rule.alert == "" then t
    else t[Key(DEFAULT, p.group, p.rule.alert) := p.rule.(keepFiringFor := None)]
  }

  /** mergePrometheusRules, alerts only: a later rule of the same group and alert replaces an
      earlier one; keep_firing_for is dropped. */
  function PromTable(rules: seq<PromRule>): (t: Table)
    ensures DefaultsOnly(t) && KeyedByAlert(t)
  {
    if rules == [] then map[] else WithProm(PromTable(rules[..|rules| - 1]), rules[|rules| - 1])
  }

  /** Every rule's map key is its Alert field. */
  predicate KeyedByAlert(t: Table) { forall k :: k in t ==> t[k].alert == k.name }

  lemma {:induction false} MergeKeepsAlert(t: Table, cms: seq<ConfigMap>)
    requires KeyedByAlert(t)
    ensures KeyedByAlert(MergeAll(t, cms))
  {
    if cms != [] {
      var init, cm := cms[..|cms| - 1], cms[|cms| - 1];
      MergeKeepsAlert(t, init);
      forall k | k in MergeAll(t, cms) ensures MergeAll(t, cms)[k].alert == k.name {
        MergeMapAt(MergeAll(t, init), cm, k);
      }
    }
  }

  // ----- the sorted rules of a file -----

  function InsertRule(s: seq<Rule>, r: Rule): seq<Rule> {
    if s == [] || Less(r.alert, s[0].alert) then [r] + s else [s[0]] + InsertRule(s[1..], r)
  }

  function Alerts(s: seq<Rule>): seq<string> { seq(|s|, i requires 0 <= i < |s| => s[i].alert) }

  lemma {:induction false} InsertRuleAlerts(s: seq<Rule>, r: Rule)
    ensures Alerts(InsertRule(s, r)) == Insert(Alerts(s), r.alert)
    ensures forall x :: x in InsertRule(s, r) <==> x in s || x == r
  {
    if s != [] && !Less(r.alert, s[0].alert) {
      InsertRuleAlerts(s[1..], r);
      assert Alerts(s)[1..] == Alerts(s[1..]);
      assert s == [s[0]] + s[1..];
      assert Alerts([s[0]] + InsertRule(s[1..], r)) == [s[0].alert] + Alerts(InsertRule(s[1..], r));
    } else {
      assert Alerts([r] + s) == [r.alert] + Alerts(s);
    }
  }

  lemma SortStep(rules: map<string, Rule>, todo: set<string>, out: seq<Rule>, n: string)
    requires todo <= rules.Keys && n in todo && rules[n].alert == n && Lists(Alerts(out), rules.Keys - todo)
    ensures Lists(Alerts(InsertRule(out, rules[n])), rules.Keys - (todo - {n}))
    ensures forall x :: x in InsertRule(out, rules[n]) <==> x in out || x == rules[n]
  {
    var names := Alerts(out);
    assert n !in names by { assert n !in Elements(names); }
    InsertRuleAlerts(out, rules[n]);
    InsertElements(names, n);
    InsertIncreasing(names, n);
    assert rules.Keys - (todo - {n}) == (rules.Keys - todo) + {n};
  }

  /** The rules of one group sorted by alert name: a map of rules keyed by their alert has exactly one
      such list, whatever order its values come in. */
  method SortRules(rules: map<string, Rule>) returns (out: seq<Rule>)
    requires forall n :: n in rules ==> rules[n].alert == n
    ensures Alerts(out) == Listing(rules.Keys)
    ensures forall i :: 0 <= i < |out| ==> out[i].alert in rules && out[i] == rules[out[i].alert]
  {
    out := [];
    var todo := rules.Keys;
    while todo != {}
      invariant todo <= rules.Keys
      invariant Lists(Alerts(out), rules.Keys - todo)
      invariant forall x :: x in out ==> x.alert in rules && x == rules[x.alert]
      decreases |todo|
    {
      var n :| n in todo;
      SortStep(rules, todo, out, n);
      out := InsertRule(out, rules[n]);
      todo := todo - {n};
    }
    assert rules.Keys - todo == rules.Keys;
    ListingUnique(Alerts(out), Listing(rules.Keys), rules.Keys);
  }
}
