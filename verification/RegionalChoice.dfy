/** Discovery of a child's regional cluster by location, and the record of the choice in the child's
    ConfigMap (`DiscoverRegionalClusterConfigMapByLocation`, `isPreviouslyUsedRegionalCluster`,
    `CreateOrUpdateConfigMap`, `locationIsTheSame`). */
module RegionalChoice {
  import opened Text

  /** The location fields of a cluster's configuration. */
  datatype Location = Location(awsRegion: string, azureLocation: string, openstackRegion: string, datacenter: string)

  /** A regional ConfigMap as a candidate; one whose data do not decode is not `readable`. */
  datatype Candidate = Candidate(readable: bool, name: string, ns: string, cloud: string, location: Location)

  /** The child; `region` is the set of cluster names in its KCM region, if it is in one. */
  datatype Child = Child(cloud: string, location: Location, region: Option<set<string>>)

  predicate LocationIsTheSame(cloud: string, a: Location, b: Location) {
    if cloud == "aws" then a.awsRegion == b.awsRegion
    else if cloud == "azure" then a.azureLocation == b.azureLocation
    else if cloud == "docker" then true
    else if cloud == "openstack" then a.openstackRegion == b.openstackRegion
    else if cloud == "vsphere" then a.datacenter == b.datacenter
    else false
  }

  /** Cloud, location and, for a child in a KCM region, the region. */
  predicate Matches(child: Child, c: Candidate) {
    c.readable && (child.region.Some? ==> c.name in child.region.value) &&
    child.cloud == c.cloud && LocationIsTheSame(child.cloud, child.location, c.location)
  }

  /** What has to be equal, cloud by cloud: the region on AWS and OpenStack, the location on Azure, the
      data centre on vSphere; Docker clusters are all in one place; clusters of any other cloud, adopted
      and remote ones among them, never match. */
  lemma MatchMeans(child: Child, c: Candidate)
    ensures Matches(child, c) ==> c.readable && c.cloud == child.cloud
    ensures Matches(child, c) && child.region.Some? ==> c.name in child.region.value
    ensures Matches(child, c) ==>
      child.cloud == "docker" ||
      (child.cloud == "aws" && c.location.awsRegion == child.location.awsRegion) ||
      (child.cloud == "azure" && c.location.azureLocation == child.location.azureLocation) ||
      (child.cloud == "openstack" && c.location.openstackRegion == child.location.openstackRegion) ||
      (child.cloud == "vsphere" && c.location.datacenter == child.location.datacenter)
  {}

  /** And whatever is so equal matches: only these fields count. */
  lemma MatchSuffices(child: Child, c: Candidate)
    requires c.readable && c.cloud == child.cloud && (child.region.Some? ==> c.name in child.region.value)
    ensures child.cloud == "docker" ==> Matches(child, c)
    ensures child.cloud == "aws" && c.location.awsRegion == child.location.awsRegion ==> Matches(child, c)
    ensures child.cloud == "azure" && c.location.azureLocation == child.location.azureLocation ==> Matches(child, c)
    ensures child.cloud == "openstack" && c.location.openstackRegion == child.location.openstackRegion ==> Matches(child, c)
    ensures child.cloud == "vsphere" && c.location.datacenter == child.location.datacenter ==> Matches(child, c)
  {}

  /** What the child's ConfigMap records: the chosen cluster's name and namespace. */
  datatype Record = Record(name: string, ns: string)

  predicate PreviouslyUsed(record: Option<Record>, c: Candidate) {
    record.Some? && record.value.name == c.name && (record.value.ns == "" || record.value.ns == c.ns)
  }

  /** No candidate before `i` could have been chosen. */
  predicate NoneBefore(child: Child, record: Option<Record>, list: seq<Candidate>, i: nat) {
    i <= |list| && forall j :: 0 <= j < i ==>
      !(Matches(child, list[j]) && (record.None? || PreviouslyUsed(record, list[j])))
  }

  /** DiscoverRegionalClusterConfigMapByLocation for a child without name label, not regionless: the
      first match that was used before, or the first match if nothing was used before. */
  method Discover(child: Child, record: Option<Record>, list: seq<Candidate>) returns (r: Option<Candidate>)
    ensures r.Some? ==> r.value in list && Matches(child, r.value)
    ensures record.Some? && r.Some? ==> PreviouslyUsed(record, r.value)
    ensures record.Some? ==>
      (r.None? <==> forall c :: c in list ==> !(Matches(child, c) && PreviouslyUsed(record, c)))
    ensures record.None? ==> (r.None? <==> forall c :: c in list ==> !Matches(child, c))
    ensures r.Some? ==> exists i :: 0 <= i < |list| && r.value == list[i] && NoneBefore(child, record, list, i)
  {
    var candidates: seq<Candidate> := [];
    ghost var first := 0;
    var i := 0;
    while i < |list|
      invariant 0 <= i <= |list|
      invariant forall j :: 0 <= j < i ==> !(Matches(child, list[j]) && PreviouslyUsed(record, list[j]))
      invariant candidates == [] ==> forall j :: 0 <= j < i ==> !Matches(child, list[j])
      invariant candidates != [] ==> 0 <= first < i && candidates[0] == list[first] && Matches(child, list[first])
      invariant candidates != [] ==> forall j :: 0 <= j < first ==> !Matches(child, list[j])
    {
      if Matches(child, list[i]) {
        if PreviouslyUsed(record, list[i]) { return Some(list[i]); }
        if candidates == [] { first := i; }
        candidates := candidates + [list[i]];
      }
      i := i + 1;
    }
    if record.Some? { return None; }
    if |candidates| > 0 { return Some(candidates[0]); }
    r := None;
  }

  /** A choice that Discover may make. */
  ghost predicate Choice(child: Child, record: Option<Record>, list: seq<Candidate>, c: Candidate) {
    c in list && Matches(child, c) && (record.Some? ==> PreviouslyUsed(record, c))
  }

  /** One reconcile of the child: what was listed and what was chosen; the ConfigMap is then created
      from, or overwritten with, the chosen candidate's data. */
  datatype Reconcile = Reconcile(child: Child, list: seq<Candidate>, chosen: Candidate)

  function Recorded(c: Candidate): Record { Record(c.name, c.ns) }

  /** A sequence of successful reconciles, with candidate lists that may change arbitrarily, from a
      ConfigMap that may be there already. */
  ghost predicate Possible(first: Option<Record>, rs: seq<Reconcile>) {
    rs == [] ||
    (Possible(first, rs[..|rs| - 1]) &&
     Choice(rs[|rs| - 1].child, RecordAfter(first, rs[..|rs| - 1]), rs[|rs| - 1].list, rs[|rs| - 1].chosen))
  }

  function RecordAfter(first: Option<Record>, rs: seq<Reconcile>): Option<Record> {
    if rs == [] then first else Some(Recorded(rs[|rs| - 1].chosen))
  }

  /** Each choice matches the child's cloud, location and KCM region, and keeps the recorded cluster's
      name, and its namespace unless none was recorded. */
  lemma OneStep(first: Option<Record>, rs: seq<Reconcile>)
    requires Possible(first, rs) && rs != []
    ensures var r := rs[|rs| - 1];
      Matches(r.child, r.chosen) && r.chosen in r.list &&
      var before := RecordAfter(first, rs[..|rs| - 1]);
      before.Some? ==> r.chosen.name == before.value.name && (before.value.ns != "" ==> r.chosen.ns == before.value.ns)
  {}

  /** Once recorded, by an earlier release or by any of the reconciles, the regional cluster's name
      never changes, and neither does its namespace once it is not empty. */
  lemma {:induction false} ChoiceSticks(first: Option<Record>, rs: seq<Reconcile>, i: nat)
    requires Possible(first, rs) && i <= |rs| && RecordAfter(first, rs[..i]).Some?
    ensures RecordAfter(first, rs).Some?
    ensures var r, last := RecordAfter(first, rs[..i]).value, RecordAfter(first, rs).value;
      last.name == r.name && (r.ns != "" ==> last.ns == r.ns)
    ensures forall j :: 0 <= j < |rs| ==> Matches(rs[j].child, rs[j].chosen) && rs[j].chosen in rs[j].list
  {
    if i == |rs| { assert rs[..i] == rs; }
    if rs != [] {
      var n := |rs| - 1;
      OneStep(first, rs);
      assert forall j :: 0 <= j < n ==> rs[..n][j] == rs[j];
      if i <= n {
        assert rs[..n][..i] == rs[..i];
        ChoiceSticks(first, rs[..n], i);
      } else {
        AllMatch(first, rs[..n]);
      }
    }
  }

  lemma {:induction false} AllMatch(first: Option<Record>, rs: seq<Reconcile>)
    requires Possible(first, rs)
    ensures forall j :: 0 <= j < |rs| ==> Matches(rs[j].child, rs[j].chosen) && rs[j].chosen in rs[j].list
  {
    if rs != [] {
      var n := |rs| - 1;
      AllMatch(first, rs[..n]);
      assert forall j :: 0 <= j < n ==> rs[..n][j] == rs[j];
      OneStep(first, rs);
    }
  }

  /** While no namespace is recorded the namespace may still move: from a record without one, two
      reconciles of one child can choose clusters of one name in two namespaces. */
  lemma NamespaceMayMove(child: Child, a: Candidate, b: Candidate)
    requires Matches(child, a) && Matches(child, b) && a.name == b.name
    ensures Possible(Some(Record(a.name, "")), [Reconcile(child, [a], a)])
    ensures Possible(Some(Record(a.name, "")), [Reconcile(child, [b], b)])
    ensures a.ns == "" ==> Possible(None, [Reconcile(child, [a], a), Reconcile(child, [b], b)])
  {
    var one, two, noted := Reconcile(child, [a], a), Reconcile(child, [b], b), Some(Record(a.name, ""));
    assert Possible(noted, [one][..0]) && Possible(noted, [two][..0]) && Possible(None, [one][..0]);
    assert Possible(noted, [one]) && Possible(noted, [two]) && Possible(None, [one]);
    assert [one, two][..1] == [one];
  }
}
