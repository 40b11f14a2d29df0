/** The files of alert rules that promxy loads (`getAlertFiles`): their names, their contents, and when
    they depend on the order in which the nested maps are walked. */
module AlertFiles {
  import opened Text
  import opened AlertRules
  import opened AppendMap

  /** A group of rules of one cluster: one entry of clusterGroupAlertRules[cluster]. */
  datatype Group = Group(cluster: string, name: string)

  function GroupOf(k: Key): Group { Group(k.cluster, k.group) }

  // ----- names -----

  function FileName(g: Group): string {
    if g.cluster == DEFAULT then g.name + ".yaml" else "__" + g.cluster + "__" + g.name + ".yaml"
  }

  /** The part of a file name before its extension. */
  function Stem(g: Group): string {
    if g.cluster == DEFAULT then g.name else "__" + g.cluster + "__" + g.name
  }

  lemma FileNameStem(g: Group)
    ensures FileName(g) == Stem(g) + ".yaml"
  {}

  /** Two groups share a file name exactly when a default group is named like a cluster's file, or two
      clusters' names and group names run into one another across the separator. */
  predicate Collide(a: Group, b: Group) {
    if a.cluster == DEFAULT && b.cluster == DEFAULT then a.name == b.name
    else if a.cluster == DEFAULT then a.name == "__" + b.cluster + "__" + b.name
    else if b.cluster == DEFAULT then b.name == "__" + a.cluster + "__" + a.name
    else a.cluster + "__" + a.name == b.cluster + "__" + b.name
  }

  lemma SameTail(x: string, y: string, tail: string)
    ensures x + tail == y + tail <==> x == y
  {
    if x + tail == y + tail {
      assert |x| == |y|;
      assert (x + tail)[..|x|] == x && (y + tail)[..|y|] == y;
    }
  }

  lemma SameHead(head: string, x: string, y: string)
    ensures head + x == head + y <==> x == y
  {
    if head + x == head + y { assert (head + x)[|head|..] == x && (head + y)[|head|..] == y; }
  }

  lemma FileNamesCollide(a: Group, b: Group)
    ensures FileName(a) == FileName(b) <==> Collide(a, b)
  {
    FileNameStem(a);
    FileNameStem(b);
    SameTail(Stem(a), Stem(b), ".yaml");
    if a.cluster != DEFAULT && b.cluster != DEFAULT {
      var x, y := a.cluster + "__" + a.name, b.cluster + "__" + b.name;
      assert Stem(a) == "__" + x && Stem(b) == "__" + y;
      SameHead("__", x, y);
    }
  }

  /** The groups of two clusters can collide exactly when one cluster's name with the separator starts
      the other's. */
  lemma ClustersCollide(c: string, d: string)
    requires c != DEFAULT && d != DEFAULT && |c| <= |d|
    ensures (exists g, h :: Collide(Group(c, g), Group(d, h))) <==> c + "__" <= d + "__"
  {
    if g, h :| Collide(Group(c, g), Group(d, h)) { Overlap(c, g, d, h); }
    if c + "__" <= d + "__" {
      var g := (d + "__")[|c| + 2..];
      assert d + "__" + "" == d + "__";
      assert Collide(Group(c, g), Group(d, ""));
    }
  }

  lemma Overlap(c: string, g: string, d: string, h: string)
    requires |c| <= |d| && c + "__" + g == d + "__" + h
    ensures c + "__" <= d + "__"
  {
    var x, y := c + "__" + g, d + "__" + h;
    assert x[..|c| + 2] == c + "__" && y[..|d| + 2] == d + "__";
    assert y[..|d| + 2][..|c| + 2] == y[..|c| + 2];
  }

  lemma NoUnderscore(c: string, g: string, d: string, h: string)
    requires '_' !in c && '_' !in d && c + "__" + g == d + "__" + h
    ensures c == d && g == h
  {
    var x, y := c + "__" + g, d + "__" + h;
    assert x[|c|] == '_' && y[|d|] == '_';
    assert forall i :: 0 <= i < |c| ==> x[i] != '_';
    assert forall i :: 0 <= i < |d| ==> y[i] != '_';
    assert |c| == |d|;
    assert x[..|c|] == c && y[..|d|] == d && x[|c| + 2..] == g && y[|d| + 2..] == h;
  }

  lemma StartsWith(c: string, g: string)
    ensures "__" <= "__" + c + "__" + g
  {}

  /** Cluster names without underscore and group names that do not start with "__" keep files apart. */
  lemma FileNamesDistinct(a: Group, b: Group)
    requires '_' !in a.cluster && '_' !in b.cluster && !("__" <= a.name) && !("__" <= b.name)
    requires FileName(a) == FileName(b)
    ensures a == b
  {
    FileNamesCollide(a, b);
    if a.cluster != DEFAULT && b.cluster != DEFAULT {
      NoUnderscore(a.cluster, a.name, b.cluster, b.name);
    } else if a.cluster != DEFAULT {
      StartsWith(a.cluster, a.name);
    } else if b.cluster != DEFAULT {
      StartsWith(b.cluster, b.name);
    }
  }

  // ----- contents -----

  /** A rule that has labels gets the label "alertgroup". A rule without any does not: the map made
      for it stays in the loop variable, which is a copy. */
  function Stamp(r: Rule, group: string): Rule {
    if r.labels.None? then r else r.(labels := Some(r.labels.value["alertgroup" := group]))
  }

  function StampTable(t: Table, keys: set<Key>): Table {
    map k | k in t :: if k in keys then Stamp(t[k], k.group) else t[k]
  }

  function KeysIn(t: Table, g: Group): set<Key> { set k | k in t && GroupOf(k) == g }

  function NamesIn(t: Table, g: Group): set<string> { set k | k in KeysIn(t, g) :: k.name }

  /** The rules of a group by name. */
  function GroupRules(t: Table, g: Group): map<string, Rule> {
    map n | n in NamesIn(t, g) :: t[Key(g.cluster, g.name, n)]
  }

  /** The stamped rules of a group, by increasing alert name. */
  ghost function FileRules(t: Table, g: Group): seq<Rule> {
    var names := Listing(NamesIn(t, g));
    seq(|names|, i requires 0 <= i < |names| =>
      (assert names[i] in Elements(names); Stamp(t[Key(g.cluster, g.name, names[i])], g.name)))
  }

  /** What a stamped rule is: the rule, and if it has labels the group's name under "alertgroup" and
      every other label as it was. */
  lemma StampMeans(r: Rule, group: string, l: string)
    ensures Stamp(r, group) == r.(labels := Stamp(r, group).labels)
    ensures r.labels.None? ==> Stamp(r, group).labels.None?
    ensures r.labels.Some? ==>
      var m := Stamp(r, group).labels;
      m.Some? && "alertgroup" in m.value && m.value["alertgroup"] == group &&
      (l != "alertgroup" ==> (l in m.value <==> l in r.labels.value) && (l in m.value ==> m.value[l] == r.labels.value[l]))
  {}

  lemma FileRuleAt(t: Table, g: Group, i: nat)
    requires i < |FileRules(t, g)|
    ensures var k := Key(g.cluster, g.name, Listing(NamesIn(t, g))[i]);
      k in t && FileRules(t, g)[i] == Stamp(t[k], g.name)
  {
    var names := Listing(NamesIn(t, g));
    assert names[i] in Elements(names);
  }

  /** A file holds every rule of its group once, stamped, in ascending order of alert name. */
  lemma FileRulesAre(t: Table, g: Group)
    requires KeyedByAlert(t)
    ensures Ascending(Alerts(FileRules(t, g)))
    ensures forall r :: r in FileRules(t, g) <==>
      exists n :: Key(g.cluster, g.name, n) in t && r == Stamp(t[Key(g.cluster, g.name, n)], g.name)
  {
    var names, rules := Listing(NamesIn(t, g)), FileRules(t, g);
    forall i | 0 <= i < |rules| ensures Alerts(rules)[i] == names[i] { FileRuleAt(t, g, i); }
    assert Alerts(rules) == names;
    IncreasingMeans(names);
    forall r | r in rules
      ensures exists n :: Key(g.cluster, g.name, n) in t && r == Stamp(t[Key(g.cluster, g.name, n)], g.name)
    {
      var i :| 0 <= i < |rules| && rules[i] == r;
      FileRuleAt(t, g, i);
    }
    forall n | Key(g.cluster, g.name, n) in t ensures Stamp(t[Key(g.cluster, g.name, n)], g.name) in rules {
      assert Key(g.cluster, g.name, n) in KeysIn(t, g);
      assert n in Elements(names);
      var i :| 0 <= i < |names| && names[i] == n;
      FileRuleAt(t, g, i);
      assert rules[i] == Stamp(t[Key(g.cluster, g.name, n)], g.name);
    }
  }

  /** Sorting the rules of a group, once stamped in the table, gives its file. */
  method SortFile(t: Table, ghost t0: Table, g: Group) returns (out: seq<Rule>)
    requires KeyedByAlert(t0) && t == StampTable(t0, KeysIn(t0, g))
    ensures out == FileRules(t0, g)
  {
    var rules := GroupRules(t, g);
    assert KeysIn(t, g) == KeysIn(t0, g);
    assert rules.Keys == NamesIn(t0, g);
    out := SortRules(rules);
    forall i | 0 <= i < |out| ensures out[i] == FileRules(t0, g)[i] {
      assert out[i].alert == Alerts(out)[i];
      assert Key(g.cluster, g.name, out[i].alert) in KeysIn(t0, g);
    }
  }

  // ----- stamping group after group -----

  function KeysOfGroups(t: Table, gs: set<Group>): set<Key> { set k | k in t && GroupOf(k) in gs }

  lemma StampedBefore(t: Table, done: set<Group>, g: Group)
    requires g !in done
    ensures var u := StampTable(t, KeysOfGroups(t, done));
      KeysIn(u, g) == KeysIn(t, g) && (KeyedByAlert(t) ==> KeyedByAlert(u)) &&
      StampTable(u, KeysIn(u, g)) == StampTable(t, KeysOfGroups(t, done + {g}))
  {}

  /** Stamping other groups does not change a group's file. */
  lemma FileUnchanged(t: Table, done: set<Group>, g: Group)
    requires g !in done
    ensures FileRules(StampTable(t, KeysOfGroups(t, done)), g) == FileRules(t, g)
  {
    var u := StampTable(t, KeysOfGroups(t, done));
    assert NamesIn(u, g) == NamesIn(t, g) by { assert KeysIn(u, g) == KeysIn(t, g); }
    var names := Listing(NamesIn(t, g));
    forall i | 0 <= i < |names| ensures FileRules(u, g)[i] == FileRules(t, g)[i] {
      assert names[i] in Elements(names);
      var k :| k in KeysIn(t, g) && k.name == names[i];
      assert k == Key(g.cluster, g.name, names[i]);
    }
  }

  // ----- the map of files -----

  /** What one group adds to its file: its rules as YAML. */
  ghost function Blocks(yaml: (string, seq<Rule>) -> string, t: Table): Group -> string {
    (g: Group) => yaml(g.name, FileRules(t, g))
  }

  /** getAlertFiles, with the groups in a given order. */
  ghost function AlertFilesIn(yaml: (string, seq<Rule>) -> string, t: Table, order: seq<Group>): map<string, string> {
    FilesIn(FileName, Blocks(yaml, t), order)
  }

  /** The files do not depend on the order of the walk exactly when groups that collide have blocks
      that commute. */
  lemma AlertFilesOrderFree(yaml: (string, seq<Rule>) -> string, t: Table, groups: set<Group>)
    ensures (forall order, order' :: Walk(order, groups) && Walk(order', groups) ==>
              AlertFilesIn(yaml, t, order) == AlertFilesIn(yaml, t, order'))
            <==> forall a, b :: a in groups && b in groups && Collide(a, b) ==>
              Blocks(yaml, t)(a) + Blocks(yaml, t)(b) == Blocks(yaml, t)(b) + Blocks(yaml, t)(a)
  {
    OrderFreeExactly(FileName, Blocks(yaml, t), groups);
    forall a, b ensures FileName(a) == FileName(b) <==> Collide(a, b) { FileNamesCollide(a, b); }
  }

  /** Names that keep files apart. */
  predicate PlainName(g: Group) { '_' !in g.cluster && !("__" <= g.name) }

  /** With plain names every group has a file of its own, with exactly its rules. */
  lemma PlainFiles(yaml: (string, seq<Rule>) -> string, t: Table, groups: set<Group>, order: seq<Group>)
    requires Walk(order, groups) && forall g :: g in groups ==> PlainName(g)
    ensures AlertFilesIn(yaml, t, order).Keys == set g | g in groups :: FileName(g)
    ensures forall g :: g in groups ==> AlertFilesIn(yaml, t, order)[FileName(g)] == yaml(g.name, FileRules(t, g))
  {
    forall a, b | a in groups && b in groups && FileName(a) == FileName(b) ensures a == b { FileNamesDistinct(a, b); }
    forall g | g in groups
      ensures FileName(g) in AlertFilesIn(yaml, t, order)
      ensures AlertFilesIn(yaml, t, order)[FileName(g)] == yaml(g.name, FileRules(t, g))
    {
      FilesApart(FileName, Blocks(yaml, t), groups, order, g);
    }
    forall file | file in AlertFilesIn(yaml, t, order) ensures exists g :: g in groups && FileName(g) == file {
      FilesAt(FileName, Blocks(yaml, t), order, file);
      var i :| 0 <= i < |order| && FileName(order[i]) == file;
      assert order[i] in Elements(order);
    }
  }

  // ----- which groups there are -----

  /** PrometheusRules make a default group when it has an alert. */
  function PromGroups(rules: seq<PromRule>): set<Group> {
    set i | 0 <= i < |rules| && rules[i].rule.alert != "" :: Group(DEFAULT, rules[i].group)
  }

  /** A ConfigMap makes all its groups, those without rules as well. */
  function GroupsOf<X>(cm: Labelled<map<string, X>>): set<Group> { set g | g in cm.data :: Group(cm.cluster, g) }

  function AllGroups<X>(cms: seq<Labelled<map<string, X>>>): set<Group> {
    if |cms| == 0 then {} else AllGroups(cms[..|cms| - 1]) + GroupsOf(cms[|cms| - 1])
  }

  lemma PromGroupsSnoc(rules: seq<PromRule>, i: nat)
    requires i < |rules|
    ensures PromGroups(rules[..i + 1]) ==
            PromGroups(rules[..i]) + if rules[i].rule.alert == "" then {} else {Group(DEFAULT, rules[i].group)}
  {
    var a, b := rules[..i], rules[..i + 1];
    forall x | x in PromGroups(a) ensures x in PromGroups(b) {
      var j :| 0 <= j < |a| && a[j].rule.alert != "" && x == Group(DEFAULT, a[j].group);
      assert b[j] == a[j];
    }
    if rules[i].rule.alert != "" { assert b[i] == rules[i]; }
    forall x | x in PromGroups(b) ensures x in PromGroups(a) || (rules[i].rule.alert != "" && x == Group(DEFAULT, rules[i].group)) {
      var j :| 0 <= j < |b| && b[j].rule.alert != "" && x == Group(DEFAULT, b[j].group);
      if j < i { assert a[j] == b[j]; }
    }
  }

  lemma {:induction false} InAllGroups<X>(cms: seq<Labelled<map<string, X>>>, g: Group)
    ensures g in AllGroups(cms) <==> exists i :: 0 <= i < |cms| && g in GroupsOf(cms[i])
  {
    if |cms| > 0 {
      var n := |cms| - 1;
      InAllGroups(cms[..n], g);
      assert forall i :: 0 <= i < n ==> cms[..n][i] == cms[i];
    }
  }

  /** Moving ConfigMaps about does not change which groups there are. */
  lemma SameGroups(cms: seq<Source>, items: seq<Source>)
    requires forall x :: x in cms <==> x in items
    ensures AllGroups(cms) == AllGroups(items)
  {
    forall g ensures g in AllGroups(cms) <==> g in AllGroups(items) {
      InAllGroups(cms, g);
      InAllGroups(items, g);
      GroupMoves(cms, items, g);
      GroupMoves(items, cms, g);
    }
  }

  lemma GroupMoves(cms: seq<Source>, items: seq<Source>, g: Group)
    requires forall x :: x in cms ==> x in items
    ensures (exists i :: 0 <= i < |cms| && g in GroupsOf(cms[i])) ==> exists i :: 0 <= i < |items| && g in GroupsOf(items[i])
  {
    if i :| 0 <= i < |cms| && g in GroupsOf(cms[i]) {
      assert cms[i] in items;
      var j :| 0 <= j < |items| && items[j] == cms[i];
    }
  }

  /** The groups of the files: those of the alerts in the PrometheusRules, for all clusters, and those
      that a cluster's ConfigMaps have a key for. */
  lemma GroupsAre(rules: seq<PromRule>, cms: seq<Source>, g: Group)
    ensures g in PromGroups(rules) <==>
      g.cluster == "" && exists i :: 0 <= i < |rules| && rules[i].rule.alert != "" && rules[i].group == g.name
    ensures g in AllGroups(cms) <==> exists i :: 0 <= i < |cms| && cms[i].cluster == g.cluster && g.name in cms[i].data
  {
    InAllGroups(cms, g);
    assert forall i :: 0 <= i < |cms| ==> (g in GroupsOf(cms[i]) <==> cms[i].cluster == g.cluster && g.name in cms[i].data);
  }
}
