/** The VMStorageConnection controller as a state machine: users create, edit and delete connections
    and clusters at any moment, between any two API calls of the one reconcile worker. Every call of
    the worker may fail; updates carry the version that was read and are refused if it is stale. */
module FinalizerProtocol {
  import opened Text
  import opened StorageArgs

  /** A cluster reference, with its namespace resolved. */
  datatype Ref = Ref(kind: string, name: string, ns: string)

  /** Once the worker has labelled a connection, its selector labels are the name and kind of `ref`. */
  datatype Conn = Conn(
    version: nat, ref: Ref, node: Node, deleting: bool, finalizer: bool, foreign: bool, labelled: bool)

  /** A storage node configured on a cluster, with the connection it was taken from. */
  datatype Entry = Entry(uid: nat, node: Node)

  datatype Cluster = Cluster(version: nat, unowned: Args, config: seq<Entry>)

  /** Where the worker stands, with what it has read so far. */
  datatype Pc =
    | Idle
    | Got(uid: nat, c: Conn)
    | NeedsFinalizer(uid: nat, c: Conn, snap: Cluster)
    | Syncing(uid: nat, c: Conn, snap: Cluster)
    | Built(uid: nat, c: Conn, snap: Cluster, listing: seq<Entry>)
    | Dropping(uid: nat, c: Conn)

  datatype State = State(next: nat, conns: map<nat, Conn>, clusters: map<Ref, Cluster>, pc: Pc)

  const INIT := State(0, map[], map[], Idle)

  datatype Step =
    // users
    | CreateConn(ref: Ref, node: Node, foreign: bool)
    | EditConn(uid: nat, node: Node)
    | DeleteConn(uid: nat)
    | CreateCluster(ref: Ref, args: Args)
    | EditCluster(ref: Ref, args: Args)
    | DeleteCluster(ref: Ref)
    // the worker
    | StartReconcile(uid: nat)
    | FetchCluster
    | AddFinalizer
    | ListConns(order: seq<nat>)
    | UpdateCluster
    | DropFinalizer
    | CallFails

  predicate Supported(kind: string) { kind == "VTCluster" || kind == "VLCluster" }

  function Nodes(config: seq<Entry>): seq<Node> {
    seq(|config|, i requires 0 <= i < |config| => config[i].node)
  }

  /** A cluster's ExtraArgs and Secrets as they stand in its spec. */
  ghost function Rendered(config: seq<Entry>, unowned: Args): (Args, seq<string>) {
    (Build(Nodes(config), unowned), Listing(SecretNames(Nodes(config))))
  }

  /** The label selector of the list call, and the filter on deletion that follows it. */
  predicate Selected(c: Conn, ref: Ref) {
    c.labelled && c.ref.kind == ref.kind && c.ref.name == ref.name && !c.deleting
  }

  predicate IsListing(s: State, ref: Ref, order: seq<nat>) {
    (forall u :: u in order ==> u in s.conns && Selected(s.conns[u], ref)) &&
    (forall u :: u in s.conns && Selected(s.conns[u], ref) ==> u in order) &&
    forall i, j :: 0 <= i < j < |order| ==> order[i] != order[j]
  }

  function Entries(s: State, order: seq<nat>): seq<Entry>
    requires forall u :: u in order ==> u in s.conns
  {
    seq(|order|, i requires 0 <= i < |order| => Entry(order[i], s.conns[order[i]].node))
  }

  // ----- user steps -----

  function DoDeleteConn(s: State, uid: nat): State {
    if uid !in s.conns || s.conns[uid].deleting then s
    else
      var c := s.conns[uid];
      if c.finalizer || c.foreign
      then s.(next := s.next + 1, conns := s.conns[uid := c.(deleting := true, version := s.next)])
      else s.(conns := s.conns - {uid})
  }

  function DoCreateCluster(s: State, ref: Ref, args: Args): State {
    if ref in s.clusters then s
    else s.(next := s.next + 1, clusters := s.clusters[ref := Cluster(s.next, args - OWNED, [])])
  }

  function DoEditCluster(s: State, ref: Ref, args: Args): State {
    if ref !in s.clusters then s
    else s.(next := s.next + 1,
            clusters := s.clusters[ref := s.clusters[ref].(version := s.next, unowned := args - OWNED)])
  }

  // ----- worker steps -----

  /** Reconcile and reconcileCluster up to the first write. */
  function DoFetch(s: State): State
    requires s.pc.Got?
  {
    var c := s.pc.c;
    if !Supported(c.ref.kind) then s.(pc := Idle)
    else if c.deleting then
      if !c.finalizer then s.(pc := Idle)
      else if c.ref !in s.clusters then s.(pc := Dropping(s.pc.uid, c))
      else s.(pc := Syncing(s.pc.uid, c, s.clusters[c.ref]))
    else if c.ref !in s.clusters then s.(pc := Idle)
    else if !c.finalizer then s.(pc := NeedsFinalizer(s.pc.uid, c, s.clusters[c.ref]))
    else s.(pc := Syncing(s.pc.uid, c, s.clusters[c.ref]))
  }

  predicate Current(s: State, uid: nat, c: Conn) { uid in s.conns && s.conns[uid].version == c.version }

  function DoAddFinalizer(s: State): State
    requires s.pc.NeedsFinalizer?
  {
    var uid := s.pc.uid;
    if !Current(s, uid, s.pc.c) then s.(pc := Idle)
    else
      var c := s.pc.c.(finalizer := true, labelled := true, version := s.next);
      s.(next := s.next + 1, conns := s.conns[uid := c], pc := Syncing(uid, c, s.pc.snap))
  }

  /** After the cluster is in sync: a connection under deletion loses its finalizer. */
  function AfterSync(pc: Pc): Pc
    requires pc.Built?
  {
    if pc.c.deleting then Dropping(pc.uid, pc.c) else Idle
  }

  /** syncCluster: no update when the spec would not change; then the entries that are there now
      stand for the connections just listed. */
  ghost function DoUpdateCluster(s: State): State
    requires s.pc.Built?
  {
    var ref, snap := s.pc.c.ref, s.pc.snap;
    if Rendered(s.pc.listing, snap.unowned) == Rendered(snap.config, snap.unowned) then
      if ref in s.clusters && s.clusters[ref].config != []
      then s.(clusters := s.clusters[ref := s.clusters[ref].(config := s.pc.listing)], pc := AfterSync(s.pc))
      else s.(pc := AfterSync(s.pc))
    else if ref in s.clusters && s.clusters[ref].version == snap.version then
      s.(next := s.next + 1,
         clusters := s.clusters[ref := Cluster(s.next, snap.unowned, s.pc.listing)], pc := AfterSync(s.pc))
    else s.(pc := Idle)
  }

  /** Without any finalizer left the object is gone. */
  function DoDropFinalizer(s: State): State
    requires s.pc.Dropping?
  {
    var uid := s.pc.uid;
    if !Current(s, uid, s.pc.c) then s.(pc := Idle)
    else if s.conns[uid].foreign then
      s.(next := s.next + 1,
         conns := s.conns[uid := s.pc.c.(finalizer := false, version := s.next)], pc := Idle)
    else s.(conns := s.conns - {uid}, pc := Idle)
  }

  /** A step that is not possible in a state leaves it as it is. */
  ghost function Next(s: State, step: Step): State {
    match step
    case CreateConn(ref, node, foreign) =>
      s.(next := s.next + 1,
         conns := s.conns[s.next := Conn(s.next, ref, node, false, false, foreign, false)])
    case EditConn(uid, node) =>
      if uid !in s.conns then s
      else s.(next := s.next + 1, conns := s.conns[uid := s.conns[uid].(node := node, version := s.next)])
    case DeleteConn(uid) => DoDeleteConn(s, uid)
    case CreateCluster(ref, args) => DoCreateCluster(s, ref, args)
    case EditCluster(ref, args) => DoEditCluster(s, ref, args)
    case DeleteCluster(ref) => s.(clusters := s.clusters - {ref})
    case StartReconcile(uid) => if s.pc.Idle? && uid in s.conns then s.(pc := Got(uid, s.conns[uid])) else s
    case FetchCluster => if s.pc.Got? then DoFetch(s) else s
    case AddFinalizer => if s.pc.NeedsFinalizer? then DoAddFinalizer(s) else s
    case ListConns(order) =>
      if s.pc.Syncing? && IsListing(s, s.pc.c.ref, order)
      then s.(pc := Built(s.pc.uid, s.pc.c, s.pc.snap, Entries(s, order))) else s
    case UpdateCluster => if s.pc.Built? then DoUpdateCluster(s) else s
    case DropFinalizer => if s.pc.Dropping? then DoDropFinalizer(s) else s
    case CallFails => s.(pc := Idle)
  }

  ghost function Run(s: State, steps: seq<Step>): State {
    if steps == [] then s else Next(Run(s, steps[..|steps| - 1]), steps[|steps| - 1])
  }

  // ----- the property -----

  ghost predicate EntrySafe(s: State, e: Entry) { e.uid in s.conns && s.conns[e.uid].finalizer }

  /** Every storage node configured on a cluster belongs to a connection that still exists and still
      holds the finalizer. */
  ghost predicate Safe(s: State) {
    forall ref, i :: ref in s.clusters && 0 <= i < |s.clusters[ref].config| ==> EntrySafe(s, s.clusters[ref].config[i])
  }

  /** References of one supported kind and name share one namespace: the list call, which selects by
      name and kind only, then stays within one cluster. */
  ghost predicate OneNamespace(refs: set<Ref>) {
    forall r, q :: r in refs && q in refs && Supported(r.kind) && r.kind == q.kind && r.name == q.name ==> r.ns == q.ns
  }

  /** The references that users write come from `refs`. */
  predicate Within(step: Step, refs: set<Ref>) {
    match step
    case CreateConn(ref, _, _) => ref in refs
    case CreateCluster(ref, _) => ref in refs
    case _ => true
  }

  ghost predicate AllWithin(steps: seq<Step>, refs: set<Ref>) {
    forall i :: 0 <= i < |steps| ==> Within(steps[i], refs)
  }

  // ----- the invariant -----

  /** A configured entry belongs to a labelled connection of this very cluster. */
  ghost predicate EntryOk(s: State, ref: Ref, e: Entry) {
    e.uid in s.conns && s.conns[e.uid].finalizer && s.conns[e.uid].labelled && s.conns[e.uid].ref == ref
  }

  ghost predicate ConfigOk(s: State, ref: Ref, config: seq<Entry>) {
    forall i :: 0 <= i < |config| ==> EntryOk(s, ref, config[i])
  }

  ghost predicate Lacks(config: seq<Entry>, uid: nat) {
    forall i :: 0 <= i < |config| ==> config[i].uid != uid
  }

  ghost predicate ConnsOk(s: State, refs: set<Ref>) {
    forall u :: u in s.conns ==> ConnOk(s, refs, u, s.conns[u])
  }

  ghost predicate ConnOk(s: State, refs: set<Ref>, u: nat, c: Conn) {
    u < s.next && c.version < s.next && c.ref in refs &&
    (c.labelled ==> Supported(c.ref.kind)) && (c.labelled && !c.deleting ==> c.finalizer) &&
    (c.finalizer ==> c.labelled)
  }

  ghost predicate ClustersOk(s: State, refs: set<Ref>) {
    forall ref :: ref in s.clusters ==> ref in refs && ConfigOk(s, ref, s.clusters[ref].config)
  }

  /** What the worker has read is still there as it was, or has a newer version, or is gone. */
  ghost predicate ConnRead(s: State, uid: nat, c: Conn) {
    uid < s.next && c.version < s.next &&
    (uid in s.conns ==>
      (s.conns[uid].ref == c.ref && (c.deleting ==> s.conns[uid].deleting) &&
       (s.conns[uid].version == c.version ==> s.conns[uid] == c)))
  }

  ghost predicate ClusterRead(s: State, ref: Ref, snap: Cluster) {
    ref in s.clusters ==> s.clusters[ref].config == snap.config || s.clusters[ref].config == []
  }

  ghost predicate NotConfigured(s: State, uid: nat) {
    forall ref :: ref in s.clusters ==> Lacks(s.clusters[ref].config, uid)
  }

  ghost predicate PcOk(s: State) {
    match s.pc
    case Idle => true
    case Got(uid, c) => ConnRead(s, uid, c)
    case NeedsFinalizer(uid, c, snap) =>
      ConnRead(s, uid, c) && ClusterRead(s, c.ref, snap) && Supported(c.ref.kind) && !c.deleting
    case Syncing(uid, c, snap) =>
      ConnRead(s, uid, c) && ClusterRead(s, c.ref, snap) && Supported(c.ref.kind) && c.finalizer
    case Built(uid, c, snap, listing) =>
      ConnRead(s, uid, c) && ClusterRead(s, c.ref, snap) && c.finalizer &&
      ConfigOk(s, c.ref, listing) && (c.deleting ==> Lacks(listing, uid))
    case Dropping(uid, c) => ConnRead(s, uid, c) && c.deleting && NotConfigured(s, uid)
  }

  ghost predicate Inv(s: State, refs: set<Ref>) {
    ConnsOk(s, refs) && ClustersOk(s, refs) && PcOk(s) && (s.pc.Idle? || s.pc.c.ref in refs)
  }

  lemma InvSafe(s: State, refs: set<Ref>)
    requires Inv(s, refs)
    ensures Safe(s)
  {
    forall ref, i | ref in s.clusters && 0 <= i < |s.clusters[ref].config|
      ensures EntrySafe(s, s.clusters[ref].config[i])
    {
      assert EntryOk(s, ref, s.clusters[ref].config[i]);
    }
  }

  /** A write that takes nothing away. */
  predicate Grows(old_: Conn, new_: Conn) {
    new_.ref == old_.ref && (old_.finalizer ==> new_.finalizer) && (old_.labelled ==> new_.labelled) &&
    (old_.deleting ==> new_.deleting)
  }

  /** Writing one connection, with a new version, without taking its finalizer or labels. */
  lemma ConnWritten(s: State, refs: set<Ref>, uid: nat, c: Conn)
    requires Inv(s, refs) && uid <= s.next && c.version == s.next && c.ref in refs
    requires if uid in s.conns then Grows(s.conns[uid], c) else uid == s.next
    requires (c.labelled ==> Supported(c.ref.kind)) && (c.labelled && !c.deleting ==> c.finalizer) && (c.finalizer ==> c.labelled)
    ensures Inv(s.(next := s.next + 1, conns := s.conns[uid := c]), refs)
  {
    var t := s.(next := s.next + 1, conns := s.conns[uid := c]);
    forall ref | ref in t.clusters ensures ConfigOk(t, ref, t.clusters[ref].config) {
      ConfigKept(s, t, ref, t.clusters[ref].config);
    }
    if s.pc.Built? { ConfigKept(s, t, s.pc.c.ref, s.pc.listing); }
  }

  lemma ConfigKept(s: State, t: State, ref: Ref, config: seq<Entry>)
    requires ConfigOk(s, ref, config)
    requires forall u :: u in s.conns && s.conns[u].finalizer ==>
      u in t.conns && t.conns[u].finalizer && t.conns[u].ref == s.conns[u].ref && (s.conns[u].labelled ==> t.conns[u].labelled)
    ensures ConfigOk(t, ref, config)
  {
    forall i | 0 <= i < |config| ensures EntryOk(t, ref, config[i]) { assert EntryOk(s, ref, config[i]); }
  }

  /** Removing a connection that is not configured. */
  lemma ConnRemoved(s: State, refs: set<Ref>, uid: nat)
    requires Inv(s, refs) && (s.pc.Idle? || (uid in s.conns && !s.conns[uid].finalizer))
    requires NotConfigured(s, uid) || (uid in s.conns && !s.conns[uid].finalizer)
    ensures Inv(s.(conns := s.conns - {uid}), refs)
  {
    var t := s.(conns := s.conns - {uid});
    forall ref | ref in t.clusters ensures ConfigOk(t, ref, t.clusters[ref].config) {
      forall i | 0 <= i < |t.clusters[ref].config| ensures EntryOk(t, ref, t.clusters[ref].config[i]) {
        assert EntryOk(s, ref, s.clusters[ref].config[i]);
      }
    }
    if s.pc.Built? {
      forall i | 0 <= i < |s.pc.listing| ensures EntryOk(t, s.pc.c.ref, s.pc.listing[i]) {
        assert EntryOk(s, s.pc.c.ref, s.pc.listing[i]);
      }
    }
  }

  /** Writing or removing a cluster without touching connections. */
  lemma ClusterWritten(s: State, t: State, refs: set<Ref>, ref: Ref)
    requires Inv(s, refs) && t.conns == s.conns && t.next >= s.next && t.pc == s.pc
    requires forall r :: r != ref ==> (r in t.clusters <==> r in s.clusters)
    requires forall r :: r != ref && r in s.clusters ==> t.clusters[r] == s.clusters[r]
    requires ref in t.clusters ==>
      (ref in refs && (t.clusters[ref].config == [] || (ref in s.clusters && t.clusters[ref].config == s.clusters[ref].config)))
    ensures Inv(t, refs)
  {
    forall r | r in t.clusters ensures r in refs && ConfigOk(t, r, t.clusters[r].config) {
      if r in s.clusters { ConfigKept(s, t, r, s.clusters[r].config); }
    }
    if s.pc.Built? { ConfigKept(s, t, s.pc.c.ref, s.pc.listing); }
  }

  lemma UserStepKeeps(s: State, refs: set<Ref>, step: Step)
    requires Inv(s, refs) && Within(step, refs)
    requires step.CreateConn? || step.EditConn? || step.DeleteConn?
    ensures Inv(Next(s, step), refs)
  {
    match step
    case CreateConn(ref, node, foreign) =>
      assert s.next !in s.conns;
      ConnWritten(s, refs, s.next, Conn(s.next, ref, node, false, false, foreign, false));
    case EditConn(uid, node) =>
      if uid in s.conns {
        assert ConnOk(s, refs, uid, s.conns[uid]);
        ConnWritten(s, refs, uid, s.conns[uid].(node := node, version := s.next));
      }
    case DeleteConn(uid) =>
      if uid in s.conns && !s.conns[uid].deleting {
        assert ConnOk(s, refs, uid, s.conns[uid]);
        if s.conns[uid].finalizer || s.conns[uid].foreign {
          ConnWritten(s, refs, uid, s.conns[uid].(deleting := true, version := s.next));
        } else {
          ConnRemoved(s, refs, uid);
        }
      }
  }

  lemma ClusterStepKeeps(s: State, refs: set<Ref>, step: Step)
    requires Inv(s, refs) && Within(step, refs)
    requires step.CreateCluster? || step.EditCluster? || step.DeleteCluster?
    ensures Inv(Next(s, step), refs)
  {
    if Next(s, step) != s { ClusterWritten(s, Next(s, step), refs, step.ref); }
  }

  /** Inv speaks of the worker's place only through PcOk. */
  lemma PcMoved(s: State, refs: set<Ref>, pc: Pc)
    requires Inv(s, refs) && PcOk(s.(pc := pc)) && (pc.Idle? || pc.c.ref in refs)
    ensures Inv(s.(pc := pc), refs)
  {
    var t := s.(pc := pc);
    forall u | u in t.conns ensures ConnOk(t, refs, u, t.conns[u]) { assert ConnOk(s, refs, u, s.conns[u]); }
    forall r | r in t.clusters ensures r in refs && ConfigOk(t, r, t.clusters[r].config) {
      ConfigKept(s, t, r, s.clusters[r].config);
    }
  }

  /** No cluster at its reference means that a connection is configured nowhere. */
  lemma NowhereConfigured(s: State, refs: set<Ref>, uid: nat, c: Conn)
    requires Inv(s, refs) && ConnRead(s, uid, c) && c.ref !in s.clusters
    ensures NotConfigured(s, uid)
  {
    forall r | r in s.clusters ensures Lacks(s.clusters[r].config, uid) {
      forall i | 0 <= i < |s.clusters[r].config| ensures s.clusters[r].config[i].uid != uid {
        assert EntryOk(s, r, s.clusters[r].config[i]);
      }
    }
  }

  lemma FetchKeeps(s: State, refs: set<Ref>)
    requires Inv(s, refs) && s.pc.Got?
    ensures Inv(DoFetch(s), refs)
  {
    if s.pc.c.ref !in s.clusters { NowhereConfigured(s, refs, s.pc.uid, s.pc.c); }
    var t := DoFetch(s);
    assert t == s.(pc := t.pc) && PcOk(t);
    PcMoved(s, refs, t.pc);
  }

  lemma AddFinalizerKeeps(s: State, refs: set<Ref>)
    requires Inv(s, refs) && s.pc.NeedsFinalizer?
    ensures Inv(DoAddFinalizer(s), refs)
  {
    var uid := s.pc.uid;
    if Current(s, uid, s.pc.c) {
      var c := s.pc.c.(finalizer := true, labelled := true, version := s.next);
      assert ConnOk(s, refs, uid, s.conns[uid]);
      ConnWritten(s, refs, uid, c);
      var t := s.(next := s.next + 1, conns := s.conns[uid := c]);
      PcMoved(t, refs, Syncing(uid, c, s.pc.snap));
    } else {
      PcMoved(s, refs, Idle);
    }
  }

  /** Here one namespace per name matters: what the selector finds belongs to this cluster. */
  lemma ListKeeps(s: State, refs: set<Ref>, order: seq<nat>)
    requires OneNamespace(refs) && Inv(s, refs) && s.pc.Syncing? && IsListing(s, s.pc.c.ref, order)
    ensures Inv(s.(pc := Built(s.pc.uid, s.pc.c, s.pc.snap, Entries(s, order))), refs)
  {
    var c, listing := s.pc.c, Entries(s, order);
    var t := s.(pc := Built(s.pc.uid, c, s.pc.snap, listing));
    forall i | 0 <= i < |listing| ensures EntryOk(t, c.ref, listing[i]) && (c.deleting ==> listing[i].uid != s.pc.uid) {
      var u := order[i];
      assert u in order && Selected(s.conns[u], c.ref);
      assert ConnOk(s, refs, u, s.conns[u]);
    }
    PcMoved(s, refs, t.pc);
  }

  /** A connection can be configured only on the cluster it refers to. */
  lemma ElsewhereLacks(s: State, refs: set<Ref>, uid: nat, c: Conn, r: Ref)
    requires ClustersOk(s, refs) && ConnRead(s, uid, c) && r in s.clusters && r != c.ref
    ensures Lacks(s.clusters[r].config, uid)
  {
    forall i | 0 <= i < |s.clusters[r].config| ensures s.clusters[r].config[i].uid != uid {
      assert EntryOk(s, r, s.clusters[r].config[i]);
    }
  }

  /** Writing the listed entries, or finding them there already, then moving on. */
  lemma ConfigWritten(s: State, t: State, refs: set<Ref>)
    requires Inv(s, refs) && s.pc.Built? && t.conns == s.conns && t.next >= s.next && t.pc == s.pc
    requires forall r :: r in t.clusters <==> r in s.clusters
    requires forall r :: r in s.clusters && r != s.pc.c.ref ==> t.clusters[r] == s.clusters[r]
    requires s.pc.c.ref in s.clusters ==>
      (t.clusters[s.pc.c.ref].config == s.pc.listing || t.clusters[s.pc.c.ref].config == [])
    ensures Inv(t.(pc := AfterSync(t.pc)), refs)
  {
    var uid, c := s.pc.uid, s.pc.c;
    forall r | r in t.clusters ensures r in refs && ConfigOk(t, r, t.clusters[r].config) {
      if r == c.ref { ConfigKept(s, t, r, s.pc.listing); } else { ConfigKept(s, t, r, s.clusters[r].config); }
    }
    var u := t.(pc := Idle);
    forall v | v in u.conns ensures ConnOk(u, refs, v, u.conns[v]) { assert ConnOk(s, refs, v, s.conns[v]); }
    forall r | r in u.clusters ensures r in refs && ConfigOk(u, r, u.clusters[r].config) {
      ConfigKept(t, u, r, t.clusters[r].config);
    }
    if c.deleting {
      forall r | r in u.clusters ensures Lacks(u.clusters[r].config, uid) {
        if r != c.ref { ElsewhereLacks(s, refs, uid, c, r); }
      }
      PcMoved(u, refs, Dropping(uid, c));
    }
  }

  lemma UpdateClusterKeeps(s: State, refs: set<Ref>)
    requires Inv(s, refs) && s.pc.Built?
    ensures Inv(DoUpdateCluster(s), refs)
  {
    var t := DoUpdateCluster(s);
    if Rendered(s.pc.listing, s.pc.snap.unowned) != Rendered(s.pc.snap.config, s.pc.snap.unowned) &&
       !(s.pc.c.ref in s.clusters && s.clusters[s.pc.c.ref].version == s.pc.snap.version) {
      PcMoved(s, refs, Idle);
    } else {
      ConfigWritten(s, t.(pc := s.pc), refs);
      assert t == t.(pc := s.pc).(pc := AfterSync(s.pc));
    }
  }

  lemma DropFinalizerKeeps(s: State, refs: set<Ref>)
    requires Inv(s, refs) && s.pc.Dropping?
    ensures Inv(DoDropFinalizer(s), refs)
  {
    var uid := s.pc.uid;
    PcMoved(s, refs, Idle);
    var idle := s.(pc := Idle);
    if Current(s, uid, s.pc.c) {
      if s.conns[uid].foreign {
        var c := s.pc.c.(finalizer := false, version := s.next);
        var t := idle.(next := s.next + 1, conns := s.conns[uid := c]);
        forall u | u in t.conns ensures ConnOk(t, refs, u, t.conns[u]) { assert ConnOk(s, refs, u, s.conns[u]); }
        forall r | r in t.clusters ensures r in refs && ConfigOk(t, r, t.clusters[r].config) {
          forall i | 0 <= i < |t.clusters[r].config| ensures EntryOk(t, r, t.clusters[r].config[i]) {
            assert EntryOk(s, r, s.clusters[r].config[i]) && Lacks(s.clusters[r].config, uid);
          }
        }
      } else {
        assert NotConfigured(idle, uid);
        ConnRemoved(idle, refs, uid);
      }
    }
  }

  /** Every step of users and worker keeps the invariant. */
  lemma StepKeeps(s: State, refs: set<Ref>, step: Step)
    requires OneNamespace(refs) && Inv(s, refs) && Within(step, refs)
    ensures Inv(Next(s, step), refs)
  {
    match step
    case CreateConn(_, _, _) => UserStepKeeps(s, refs, step);
    case EditConn(_, _) => UserStepKeeps(s, refs, step);
    case DeleteConn(_) => UserStepKeeps(s, refs, step);
    case CreateCluster(_, _) => ClusterStepKeeps(s, refs, step);
    case EditCluster(_, _) => ClusterStepKeeps(s, refs, step);
    case DeleteCluster(_) => ClusterStepKeeps(s, refs, step);
    case StartReconcile(uid) =>
      if s.pc.Idle? && uid in s.conns {
        assert ConnOk(s, refs, uid, s.conns[uid]);
        PcMoved(s, refs, Got(uid, s.conns[uid]));
      }
    case FetchCluster => if s.pc.Got? { FetchKeeps(s, refs); }
    case AddFinalizer => if s.pc.NeedsFinalizer? { AddFinalizerKeeps(s, refs); }
    case ListConns(order) => if s.pc.Syncing? && IsListing(s, s.pc.c.ref, order) { ListKeeps(s, refs, order); }
    case UpdateCluster => if s.pc.Built? { UpdateClusterKeeps(s, refs); }
    case DropFinalizer => if s.pc.Dropping? { DropFinalizerKeeps(s, refs); }
    case CallFails => PcMoved(s, refs, Idle);
  }

  lemma {:induction false} RunKeeps(refs: set<Ref>, steps: seq<Step>)
    requires OneNamespace(refs) && AllWithin(steps, refs)
    ensures Inv(Run(INIT, steps), refs)
  {
    if steps != [] {
      var before, last := steps[..|steps| - 1], steps[|steps| - 1];
      assert AllWithin(before, refs);
      RunKeeps(refs, before);
      StepKeeps(Run(INIT, before), refs, last);
    }
  }

  // ----- without one namespace per name the property fails -----

  ghost predicate Reaches(refs: set<Ref>, steps: seq<Step>, s: State) {
    AllWithin(steps, refs) && Run(INIT, steps) == s
  }

  lemma OneMore(refs: set<Ref>, steps: seq<Step>, s: State, step: Step) returns (more: seq<Step>)
    requires Reaches(refs, steps, s) && Within(step, refs)
    ensures Reaches(refs, more, Next(s, step))
  {
    more := steps + [step];
    assert more[..|more| - 1] == steps;
  }

  const NODE := Node("a", "", "", "", false, false)

  /** Two clusters of one kind and name in two namespaces, each with a connection. */
  function TwoClusters(r: Ref, q: Ref): State {
    State(4, map[2 := Conn(2, r, NODE, false, false, false, false), 3 := Conn(3, q, NODE, false, false, false, false)],
          map[r := Cluster(0, map[], []), q := Cluster(1, map[], [])], Idle)
  }

  lemma ReachTwoClusters(refs: set<Ref>, r: Ref, q: Ref) returns (steps: seq<Step>)
    requires r in refs && q in refs && r != q
    ensures Reaches(refs, steps, TwoClusters(r, q))
  {
    var s := INIT;
    steps := [];
    var none: Args := map[];
    assert none - OWNED == none;
    steps := OneMore(refs, steps, s, CreateCluster(r, map[]));
    s := Next(s, CreateCluster(r, map[]));
    steps := OneMore(refs, steps, s, CreateCluster(q, map[]));
    s := Next(s, CreateCluster(q, map[]));
    steps := OneMore(refs, steps, s, CreateConn(r, NODE, false));
    s := Next(s, CreateConn(r, NODE, false));
    steps := OneMore(refs, steps, s, CreateConn(q, NODE, false));
    s := Next(s, CreateConn(q, NODE, false));
    assert s == TwoClusters(r, q);
  }

  /** The first connection has been labelled; its sync was cut off. */
  function FirstLabelled(r: Ref, q: Ref): State {
    var s := TwoClusters(r, q);
    s.(next := 5, conns := s.conns[2 := Conn(4, r, NODE, false, true, false, true)])
  }

  lemma ReachFirstLabelled(refs: set<Ref>, r: Ref, q: Ref) returns (steps: seq<Step>)
    requires r in refs && q in refs && r != q && Supported(r.kind)
    ensures Reaches(refs, steps, FirstLabelled(r, q))
  {
    steps := ReachTwoClusters(refs, r, q);
    var s := TwoClusters(r, q);
    steps := OneMore(refs, steps, s, StartReconcile(2));
    s := Next(s, StartReconcile(2));
    steps := OneMore(refs, steps, s, FetchCluster);
    s := Next(s, FetchCluster);
    assert s.pc.NeedsFinalizer?;
    steps := OneMore(refs, steps, s, AddFinalizer);
    s := Next(s, AddFinalizer);
    steps := OneMore(refs, steps, s, CallFails);
    s := Next(s, CallFails);
    assert s == FirstLabelled(r, q);
  }

  /** The second connection has been labelled and is about to list. */
  function SecondSyncing(r: Ref, q: Ref): State {
    var s := FirstLabelled(r, q);
    var c := Conn(5, q, NODE, false, true, false, true);
    s.(next := 6, conns := s.conns[3 := c], pc := Syncing(3, c, Cluster(1, map[], [])))
  }

  lemma ReachSecondSyncing(refs: set<Ref>, r: Ref, q: Ref) returns (steps: seq<Step>)
    requires r in refs && q in refs && r != q && Supported(r.kind) && q.kind == r.kind
    ensures Reaches(refs, steps, SecondSyncing(r, q))
  {
    steps := ReachFirstLabelled(refs, r, q);
    var s := FirstLabelled(r, q);
    steps := OneMore(refs, steps, s, StartReconcile(3));
    s := Next(s, StartReconcile(3));
    steps := OneMore(refs, steps, s, FetchCluster);
    s := Next(s, FetchCluster);
    assert s.pc.NeedsFinalizer?;
    steps := OneMore(refs, steps, s, AddFinalizer);
    s := Next(s, AddFinalizer);
    assert s == SecondSyncing(r, q);
  }

  /** The second connection's sync has put both nodes on the second cluster. */
  function BothConfigured(r: Ref, q: Ref): State {
    var s := SecondSyncing(r, q);
    s.(next := 7, clusters := s.clusters[q := Cluster(6, map[], [Entry(2, NODE), Entry(3, NODE)])], pc := Idle)
  }

  lemma NodesShow(config: seq<Entry>)
    requires config != []
    ensures Rendered(config, map[]) != Rendered([], map[])
  {
    BuildAt(Nodes(config), map[], Tls);
    BuildAt(Nodes([]), map[], Tls);
    assert Column(Tls, Nodes(config))[0] != "";
  }

  lemma ReachBothConfigured(refs: set<Ref>, r: Ref, q: Ref) returns (steps: seq<Step>)
    requires r in refs && q in refs && r != q && Supported(r.kind) && q.kind == r.kind && q.name == r.name
    ensures Reaches(refs, steps, BothConfigured(r, q))
  {
    steps := ReachSecondSyncing(refs, r, q);
    var s := SecondSyncing(r, q);
    assert s.conns.Keys == {2, 3};
    assert IsListing(s, q, [2, 3]);
    steps := OneMore(refs, steps, s, ListConns([2, 3]));
    s := Next(s, ListConns([2, 3]));
    assert s.pc.Built? && s.pc.listing == [Entry(2, NODE), Entry(3, NODE)];
    NodesShow(s.pc.listing);
    steps := OneMore(refs, steps, s, UpdateCluster);
    s := Next(s, UpdateCluster);
    assert s == BothConfigured(r, q);
  }

  /** The first connection is under deletion, and its own cluster is gone. */
  function FirstDeleting(r: Ref, q: Ref): State {
    var s := BothConfigured(r, q);
    s.(next := 8, conns := s.conns[2 := Conn(7, r, NODE, true, true, false, true)], clusters := s.clusters - {r})
  }

  lemma ReachFirstDeleting(refs: set<Ref>, r: Ref, q: Ref) returns (steps: seq<Step>)
    requires r in refs && q in refs && r != q && Supported(r.kind) && q.kind == r.kind && q.name == r.name
    ensures Reaches(refs, steps, FirstDeleting(r, q))
  {
    steps := ReachBothConfigured(refs, r, q);
    var s := BothConfigured(r, q);
    steps := OneMore(refs, steps, s, DeleteConn(2));
    s := Next(s, DeleteConn(2));
    steps := OneMore(refs, steps, s, DeleteCluster(r));
    s := Next(s, DeleteCluster(r));
    assert s == FirstDeleting(r, q);
  }

  /** A run in which a connection is gone while its node is still configured. */
  lemma TwoNamespacesUnsafe(refs: set<Ref>, r: Ref, q: Ref) returns (steps: seq<Step>)
    requires r in refs && q in refs && Supported(r.kind) && q.kind == r.kind && q.name == r.name && r.ns != q.ns
    ensures AllWithin(steps, refs) && !Safe(Run(INIT, steps))
  {
    steps := ReachFirstDeleting(refs, r, q);
    var s := FirstDeleting(r, q);
    steps := OneMore(refs, steps, s, StartReconcile(2));
    s := Next(s, StartReconcile(2));
    steps := OneMore(refs, steps, s, FetchCluster);
    s := Next(s, FetchCluster);
    assert s.pc.Dropping?;
    steps := OneMore(refs, steps, s, DropFinalizer);
    s := Next(s, DropFinalizer);
    assert 2 !in s.conns && q in s.clusters && s.clusters[q].config[0] == Entry(2, NODE);
    assert !EntrySafe(s, s.clusters[q].config[0]);
  }

  /** The finalizer protocol is safe in every run exactly when references of one supported kind and
      name never name two namespaces. */
  lemma FinalizerSafety(refs: set<Ref>)
    ensures (forall steps :: AllWithin(steps, refs) ==> Safe(Run(INIT, steps))) <==> OneNamespace(refs)
  {
    if OneNamespace(refs) {
      forall steps | AllWithin(steps, refs) ensures Safe(Run(INIT, steps)) {
        RunKeeps(refs, steps);
        InvSafe(Run(INIT, steps), refs);
      }
    } else {
      var r, q :| r in refs && q in refs && Supported(r.kind) && r.kind == q.kind && r.name == q.name && r.ns != q.ns;
      var steps := TwoNamespacesUnsafe(refs, r, q);
    }
  }
}
