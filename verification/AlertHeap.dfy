/** The alert merge on the heap. A rule is a struct that is copied, but its Labels and Annotations are
    maps on the heap, shared by all copies of the struct, and nil when absent. */
module AlertHeap {
  import opened Text
  import opened AlertRules
  import opened AppendMap
  import opened AlertFiles

  class LabelMap {
    var m: map<string, string>

    constructor (m: map<string, string>)
      ensures this.m == m
    {
      this.m := m;
    }
  }

  datatype HeapRule = HeapRule(
    alert: string, expr: Expr, duration: Option<string>, keepFiringFor: Option<string>,
    labels: LabelMap?, annotations: LabelMap?)

  function Objs(r: HeapRule): set<LabelMap> {
    (if r.labels != null then {r.labels} else {}) + (if r.annotations != null then {r.annotations} else {})
  }

  /** A rule does not use one map for both purposes. */
  predicate Separate(r: HeapRule) { r.labels == null || r.labels != r.annotations }

  function Contents(o: LabelMap?): Option<map<string, string>>
    reads if o != null then {o} else {}
  {
    if o == null then None else Some(o.m)
  }

  function Value(r: HeapRule): Rule
    reads Objs(r)
  {
    Rule(r.alert, r.expr, r.duration, r.keepFiringFor, Contents(r.labels), Contents(r.annotations))
  }

  method NewMap(v: Option<map<string, string>>) returns (o: LabelMap?)
    ensures Contents(o) == v && (o != null ==> fresh(o))
  {
    match v
    case None => o := null;
    case Some(m) => o := new LabelMap(m);
  }

  /** Decoding a rule from YAML makes new maps. */
  method NewRule(v: Rule) returns (r: HeapRule)
    ensures Value(r) == v && fresh(Objs(r)) && Separate(r)
  {
    var labels := NewMap(v.labels);
    var annotations := NewMap(v.annotations);
    r := HeapRule(v.alert, v.expr, v.duration, v.keepFiringFor, labels, annotations);
  }

  /** DeepCopy */
  method DeepCopy(r: HeapRule) returns (c: HeapRule)
    ensures Value(c) == Value(r) && fresh(Objs(c)) && Separate(c)
  {
    c := NewRule(Value(r));
  }

  /** maps.Copy into the map of the old rule, which is made if it is nil. */
  method CopyInto(o: LabelMap?, n: LabelMap?) returns (r: LabelMap?)
    requires o == null || o != n
    modifies if o != null then {o} else {}
    ensures Contents(r) == Overlay(old(Contents(o)), old(Contents(n)))
    ensures if o != null then r == o else r != null ==> fresh(r)
  {
    r := o;
    if n != null {
      if r == null { r := new LabelMap(map[]); }
      r.m := r.m + n.m;
    }
  }

  /** patchRule: the old rule's maps are changed in place, for every copy of the struct. */
  method PatchRule(o: HeapRule, n: HeapRule) returns (r: HeapRule)
    requires Separate(o) && Objs(o) !! Objs(n)
    modifies Objs(o)
    ensures Value(r) == Patch(old(Value(o)), old(Value(n)))
    ensures Separate(r) && fresh(Objs(r) - Objs(o))
  {
    ghost var before, patch := Value(o), Value(n);
    var labels := CopyInto(o.labels, n.labels);
    assert Contents(n.annotations) == patch.annotations by { assert n.annotations == null || n.annotations in Objs(n); }
    var annotations := CopyInto(o.annotations, n.annotations);
    assert Contents(labels) == Overlay(before.labels, patch.labels);
    r := HeapRule(o.alert,
                  if n.expr.text != "" || n.expr.number != 0 then n.expr else o.expr,
                  if n.duration.Some? then n.duration else o.duration,
                  if n.keepFiringFor.Some? then n.keepFiringFor else o.keepFiringFor,
                  labels, annotations);
  }

  /** The nested maps clusterGroupAlertRules[cluster][group][rule]: which groups there are, and the
      rules by their full path. */
  class RuleBook {
    var groups: set<Group>
    var rules: map<Key, HeapRule>
    ghost var owner: map<LabelMap, Key>

    /** No two rules share a map: every map in use has one owner. */
    ghost predicate Valid()
      reads this
    {
      forall k :: k in rules ==> Separate(rules[k]) && Owns(k, rules[k])
    }

    ghost predicate Owns(k: Key, r: HeapRule)
      reads this
    {
      forall o :: o in Objs(r) ==> o in owner && owner[o] == k
    }

    ghost function ObjsAt(k: Key): set<LabelMap>
      reads this
    {
      if k in rules then Objs(rules[k]) else {}
    }

    /** The rules, as values. */
    ghost predicate Shows(t: Table)
      requires Valid()
      reads this, owner.Keys
    {
      rules.Keys == t.Keys && forall k :: k in rules ==> Value(rules[k]) == t[k]
    }

    constructor ()
      ensures Valid() && Shows(map[]) && owner == map[] && groups == {}
    {
      groups, rules, owner := {}, map[], map[];
    }

    /** Puts a rule with maps of its own at `k`. */
    method Store(k: Key, r: HeapRule, ghost t: Table, ghost w: Rule)
      requires Valid() && Separate(r) && Value(r) == w && rules.Keys == t.Keys
      requires forall o :: o in Objs(r) && o in owner ==> owner[o] == k
      requires forall l :: l in rules && l != k ==> Value(rules[l]) == t[l]
      modifies this`rules, this`owner
      ensures Valid() && rules == old(rules)[k := r] && owner.Keys == old(owner.Keys) + Objs(r)
      ensures Shows(t[k := w])
    {
      forall l | l in rules && l != k ensures Objs(r) !! Objs(rules[l]) { assert Owns(l, rules[l]); }
      rules := rules[k := r];
      owner := map o | o in owner.Keys + Objs(r) :: if o in Objs(r) then k else owner[o];
    }

    /** What the rule at `k` becomes, patched in place if it is there already. */
    method Resolve(k: Key, v: Rule, ghost t: Table) returns (r: HeapRule)
      requires Valid() && Shows(t)
      modifies ObjsAt(k)
      ensures Value(r) == Merged(t, k, v)
      ensures Separate(r) && fresh(Objs(r) - ObjsAt(k))
    {
      var n := NewRule(v.(alert := k.name));
      if k in rules {
        r := PatchRule(rules[k], n);
      } else if k.cluster != DEFAULT && DefaultKey(k) in rules {
        var copy := DeepCopy(rules[DefaultKey(k)]);
        r := PatchRule(copy, n);
      } else {
        r := n;
      }
    }

    /** No other rule has a map of the rule at `k`. */
    lemma Disjoint(k: Key, l: Key)
      requires Valid() && l in rules && l != k
      ensures ObjsAt(k) !! Objs(rules[l])
    {
      assert Owns(l, rules[l]);
      if k in rules { assert Owns(k, rules[k]); }
    }

    /** One ConfigMap rule. Only the maps of the rule at `k` itself are changed: a cluster's rule
        never changes the default rule it starts from, nor any other rule. */
    method MergeRule(k: Key, v: Rule, ghost t: Table)
      requires Valid() && Shows(t)
      modifies this`rules, this`owner, ObjsAt(k)
      ensures Valid()
      ensures forall o :: o in owner ==> o in old(owner) || fresh(o)
      ensures Shows(MergeOne(t, k, v))
      ensures forall l :: l in old(rules) && l != k ==> l in rules && rules[l] == old(rules[l])
    {
      ghost var mine := ObjsAt(k);
      assert forall o :: o in mine ==> o in owner && owner[o] == k by { assert k in rules ==> Owns(k, rules[k]); }
      var r := Resolve(k, v, t);
      forall l | l in rules && l != k ensures Value(rules[l]) == t[l] { Disjoint(k, l); }
      Store(k, r, t, Merged(t, k, v));
    }

    /** One ConfigMap, its groups and rules in any order; false if a group does not decode. The rules
        of other clusters, the default ones among them, stay as they are on the heap. */
    method MergeConfigMap(src: Source, ghost t: Table) returns (ok: bool)
      requires Valid() && Shows(t)
      modifies this, owner.Keys
      ensures Valid()
      ensures forall l :: l in old(rules) && l.cluster != src.cluster ==> l in rules && rules[l] == old(rules[l])
      ensures forall o :: o in owner ==> o in old(owner) || fresh(o)
      ensures ok <==> Decodes(src)
      ensures ok ==> Shows(MergeMap(t, Decoded(src))) && groups == old(groups) + GroupsOf(src)
    {
      ok := Decodes(src);
      if !ok { return; }
      groups := groups + GroupsOf(src);
      MergeRules(Decoded(src), t);
    }

    /** The rules of a decoded ConfigMap. */
    method MergeRules(cm: ConfigMap, ghost t: Table)
      requires Valid() && Shows(t)
      modifies this`rules, this`owner, owner.Keys
      ensures Valid() && Shows(MergeMap(t, cm))
      ensures forall l :: l in old(rules) && l.cluster != cm.cluster ==> l in rules && rules[l] == old(rules[l])
      ensures forall o :: o in owner ==> o in old(owner) || fresh(o)
    {
      var todo := KeysOf(cm);
      ghost var now := t;
      assert Partial(t, cm, KeysOf(cm) - todo) == t;
      while todo != {}
        invariant Valid()
        invariant forall o :: o in owner ==> o in old(owner) || fresh(o)
        invariant todo <= KeysOf(cm) && now == Partial(t, cm, KeysOf(cm) - todo) && Shows(now)
        invariant forall l :: l in old(rules) && l.cluster != cm.cluster ==> l in rules && rules[l] == old(rules[l])
        decreases todo
      {
        var k :| k in todo;
        WalkOn(t, cm, todo, k);
        MergeRule(k, RuleIn(cm, k).value, now);
        now := MergeOne(now, k, RuleIn(cm, k).value);
        todo := todo - {k};
      }
      assert KeysOf(cm) - todo == KeysOf(cm);
    }

    /** mergeAlertConfigMaps: all ConfigMaps in list order, stopping at the first that does not decode. */
    method MergeAlertConfigMaps(srcs: seq<Source>, ghost t: Table) returns (ok: bool)
      requires Valid() && Shows(t)
      modifies this, owner.Keys
      ensures Valid()
      ensures forall o :: o in owner ==> o in old(owner) || fresh(o)
      ensures ok <==> AllDecode(srcs)
      ensures ok ==> Shows(MergeAll(t, DecodedAll(srcs))) && groups == old(groups) + AllGroups(srcs)
    {
      ok := true;
      var i := 0;
      while i < |srcs|
        invariant 0 <= i <= |srcs| && Valid()
        invariant forall o :: o in owner ==> o in old(owner) || fresh(o)
        invariant AllDecode(srcs[..i])
        invariant Shows(MergeAll(t, DecodedAll(srcs[..i]))) && groups == old(groups) + AllGroups(srcs[..i])
      {
        DecodedSnoc(srcs, i);
        ok := MergeConfigMap(srcs[i], MergeAll(t, DecodedAll(srcs[..i])));
        if !ok { return; }
        i := i + 1;
      }
      assert srcs[..i] == srcs;
    }

    /** mergePrometheusRules, alerts only. */
    method MergePrometheusRules(proms: seq<PromRule>)
      requires Valid() && Shows(map[])
      modifies this
      ensures Valid() && Shows(PromTable(proms)) && groups == old(groups) + PromGroups(proms)
      ensures forall o :: o in owner ==> o in old(owner) || fresh(o)
    {
      var i := 0;
      while i < |proms|
        invariant 0 <= i <= |proms| && Valid() && Shows(PromTable(proms[..i]))
        invariant groups == old(groups) + PromGroups(proms[..i])
        invariant forall o :: o in owner ==> o in old(owner) || fresh(o)
      {
        AddPrometheusRule(proms[i], PromTable(proms[..i]));
        PromGroupsSnoc(proms, i);
        assert proms[..i + 1][..i] == proms[..i];
        i := i + 1;
      }
      assert proms[..i] == proms;
    }

    method AddPrometheusRule(p: PromRule, ghost t: Table)
      requires Valid() && Shows(t)
      modifies this
      ensures Valid() && Shows(WithProm(t, p))
      ensures groups == old(groups) + if p.rule.alert == "" then {} else {Group(DEFAULT, p.group)}
      ensures forall o :: o in owner ==> o in old(owner) || fresh(o)
    {
      if p.rule.alert == "" { return; }
      groups := groups + {Group(DEFAULT, p.group)};
      var r := NewRule(p.rule.(keepFiringFor := None));
      Store(Key(DEFAULT, p.group, p.rule.alert), r, t, p.rule.(keepFiringFor := None));
    }

    /** Sets the group label in the label map of one rule, if it has one. */
    method StampRule(k: Key, ghost t: Table)
      requires Valid() && Shows(t) && k in rules
      modifies ObjsAt(k)
      ensures Valid() && Shows(t[k := Stamp(t[k], k.group)])
    {
      var labels := rules[k].labels;
      forall l | l in rules && l != k ensures Objs(rules[l]) !! Objs(rules[k]) { Disjoint(k, l); }
      if labels != null {
        labels.m := labels.m["alertgroup" := k.group];
      }
    }

    method StampGroup(keys: set<Key>, ghost t: Table)
      requires Valid() && Shows(t) && keys <= rules.Keys
      modifies owner.Keys
      ensures Valid() && Shows(StampTable(t, keys))
    {
      var todo := keys;
      assert StampTable(t, keys - todo) == t;
      while todo != {}
        invariant Valid() && todo <= keys && Shows(StampTable(t, keys - todo))
        decreases todo
      {
        var k :| k in todo;
        StampOn(t, keys, todo, k);
        assert Owns(k, rules[k]);
        StampRule(k, StampTable(t, keys - todo));
        todo := todo - {k};
      }
      assert keys - todo == keys;
    }

    /** One file of getAlertFiles: its rules are stamped in place, then listed by alert name. */
    method AlertFile(g: Group, ghost t: Table) returns (out: seq<Rule>)
      requires Valid() && Shows(t) && KeyedByAlert(t)
      modifies owner.Keys
      ensures Valid() && out == FileRules(t, g)
      ensures Shows(StampTable(t, KeysIn(t, g)))
    {
      var keys := set k | k in rules && GroupOf(k) == g;
      assert keys == KeysIn(t, g);
      StampGroup(keys, t);
      var values := map k | k in rules :: Value(rules[k]);
      assert values == StampTable(t, keys);
      out := SortFile(values, t, g);
    }

    /** getAlertFiles: all groups, in whatever order the nested maps yield them. Stamping one group
        leaves the files of the others as they would have been. */
    method GetAlertFiles(yaml: (string, seq<Rule>) -> string, ghost t: Table)
      returns (files: map<string, string>, ghost order: seq<Group>)
      requires Valid() && Shows(t) && KeyedByAlert(t)
      modifies owner.Keys
      ensures Valid() && Shows(StampTable(t, KeysOfGroups(t, groups)))
      ensures Walk(order, groups) && files == AlertFilesIn(yaml, t, order)
    {
      files, order := map[], [];
      var todo := groups;
      ghost var now := StampTable(t, KeysOfGroups(t, {}));
      assert now == t;
      while todo != {}
        invariant Valid() && todo <= groups && Walk(order, groups - todo)
        invariant now == StampTable(t, KeysOfGroups(t, groups - todo)) && Shows(now) && KeyedByAlert(now)
        invariant files == AlertFilesIn(yaml, t, order)
        decreases todo
      {
        var g :| g in todo;
        NextFile(yaml, t, order, groups, todo, g);
        var out := AlertFile(g, now);
        files := Append(files, FileName(g), yaml(g.name, out));
        now := StampTable(now, KeysIn(now, g));
        order := order + [g];
        todo := todo - {g};
      }
      assert groups - todo == groups;
    }
  }

  lemma NextFile(yaml: (string, seq<Rule>) -> string, t: Table, order: seq<Group>, groups: set<Group>, todo: set<Group>, g: Group)
    requires todo <= groups && g in todo && Walk(order, groups - todo)
    ensures var now := StampTable(t, KeysOfGroups(t, groups - todo));
      var next := StampTable(now, KeysIn(now, g));
      next == StampTable(t, KeysOfGroups(t, groups - (todo - {g}))) && (KeyedByAlert(now) ==> KeyedByAlert(next)) &&
      AlertFilesIn(yaml, t, order + [g]) ==
        Append(AlertFilesIn(yaml, t, order), FileName(g), yaml(g.name, FileRules(now, g)))
    ensures Walk(order + [g], groups - (todo - {g}))
  {
    var done := groups - todo;
    assert groups - (todo - {g}) == done + {g};
    StampedBefore(t, done, g);
    FileUnchanged(t, done, g);
    WalkSnoc(order, done, g);
    assert (order + [g])[..|order|] == order;
  }

  lemma DecodedSnoc(srcs: seq<Source>, i: nat)
    requires i < |srcs| && AllDecode(srcs[..i])
    ensures srcs[..i + 1][..i] == srcs[..i]
    ensures AllDecode(srcs[..i + 1]) <==> Decodes(srcs[i])
    ensures !Decodes(srcs[i]) ==> !AllDecode(srcs)
    ensures Decodes(srcs[i]) ==> DecodedAll(srcs[..i + 1])[..i] == DecodedAll(srcs[..i])
  {
    assert forall j :: 0 <= j < i ==> srcs[..i + 1][j] == srcs[..i][j];
  }

  lemma WalkOn(t: Table, cm: ConfigMap, todo: set<Key>, k: Key)
    requires todo <= KeysOf(cm) && k in todo
    ensures RuleIn(cm, k).Some?
    ensures MergeOne(Partial(t, cm, KeysOf(cm) - todo), k, RuleIn(cm, k).value) ==
            Partial(t, cm, KeysOf(cm) - (todo - {k}))
  {
    PartialStep(t, cm, KeysOf(cm) - todo, k);
    assert KeysOf(cm) - (todo - {k}) == (KeysOf(cm) - todo) + {k};
  }

  lemma StampOn(t: Table, keys: set<Key>, todo: set<Key>, k: Key)
    requires keys <= t.Keys && todo <= keys && k in todo
    ensures StampTable(t, keys - todo)[k] == t[k]
    ensures StampTable(t, keys - todo)[k := Stamp(t[k], k.group)] == StampTable(t, keys - (todo - {k}))
  {}

  // ----- from the listed objects to the files -----

  /** `t` holds, rule by rule, the layered fold over the ConfigMaps as they were listed. */
  ghost predicate IsMerged(t: Table, proms: seq<PromRule>, items: seq<Source>)
    requires AllDecode(items)
  {
    forall k :: Get(t, k) == Layered(PromTable(proms), DecodedAll(items), k)
  }

  /** There is only one such table. */
  lemma MergedUnique(t: Table, t': Table, proms: seq<PromRule>, items: seq<Source>)
    requires AllDecode(items) && IsMerged(t, proms, items) && IsMerged(t', proms, items)
    ensures t == t'
  {
    forall k ensures k in t <==> k in t'
      ensures k in t ==> t[k] == t'[k]
    {
      assert Get(t, k) == Get(t', k);
    }
  }

  lemma ListedMerge(proms: seq<PromRule>, items: seq<Source>, cms: seq<Source>)
    requires AllDecode(items) && AllDecode(cms) && DefaultsFirst(cms) && forall c :: OfCluster(cms, c) == OfCluster(items, c)
    ensures IsMerged(MergeAll(PromTable(proms), DecodedAll(cms)), proms, items)
    ensures KeyedByAlert(MergeAll(PromTable(proms), DecodedAll(cms))) && AllGroups(cms) == AllGroups(items)
  {
    var t := PromTable(proms);
    SameDecoded(cms, items);
    SameMembers(cms, items);
    SameGroups(cms, items);
    MergeKeepsAlert(t, DecodedAll(cms));
    forall k ensures Get(MergeAll(t, DecodedAll(cms)), k) == Layered(t, DecodedAll(items), k) {
      MergedRule(t, DecodedAll(items), DecodedAll(cms), k);
    }
  }

  /** updateResultingConfigMaps, alerts only: the files are those of the layered rules of all groups. */
  method AlertsOf(proms: seq<PromRule>, items: seq<Source>, yaml: (string, seq<Rule>) -> string)
    returns (files: Option<map<string, string>>, ghost t: Table, ghost order: seq<Group>)
    ensures files.Some? <==> AllDecode(items)
    ensures files.Some? ==> IsMerged(t, proms, items)
    ensures files.Some? ==> Walk(order, PromGroups(proms) + AllGroups(items)) && files.value == AlertFilesIn(yaml, t, order)
  {
    t, order := map[], [];
    var cms := GetConfigMaps(items);
    SameDecode(cms, items);
    var book := new RuleBook();
    book.MergePrometheusRules(proms);
    var ok := book.MergeAlertConfigMaps(cms, PromTable(proms));
    if !ok { return None, t, order; }
    ListedMerge(proms, items, cms);
    t := MergeAll(PromTable(proms), DecodedAll(cms));
    var out;
    out, order := book.GetAlertFiles(yaml, t);
    files := Some(out);
  }

  /** Alert files are deterministic: with plain names, any two runs over the same objects, whatever
      maps they walked in whatever order, write the same files. */
  lemma AlertsDeterministic(proms: seq<PromRule>, items: seq<Source>, yaml: (string, seq<Rule>) -> string,
                            t: Table, order: seq<Group>, t': Table, order': seq<Group>)
    requires AllDecode(items) && IsMerged(t, proms, items) && IsMerged(t', proms, items)
    requires var groups := PromGroups(proms) + AllGroups(items);
      Walk(order, groups) && Walk(order', groups) && forall g :: g in groups ==> PlainName(g)
    ensures AlertFilesIn(yaml, t, order) == AlertFilesIn(yaml, t', order')
  {
    var groups := PromGroups(proms) + AllGroups(items);
    MergedUnique(t, t', proms, items);
    PlainFiles(yaml, t, groups, order);
    PlainFiles(yaml, t, groups, order');
    var f, f' := AlertFilesIn(yaml, t, order), AlertFilesIn(yaml, t, order');
    forall file | file in f ensures f[file] == f'[file] {
      var g :| g in groups && FileName(g) == file;
    }
  }
}
