/** What a reconcile achieves when nothing comes in between: the cluster is configured with exactly its
    active connections, each with its own node, and a deletion comes to its end. */
module FinalizerSync {
  import opened Text
  import opened StorageArgs
  import opened FinalizerProtocol

  /** An active connection of the cluster, as the controller's labels have it. */
  predicate ActiveOn(s: State, ref: Ref, u: nat) {
    u in s.conns && s.conns[u].labelled && !s.conns[u].deleting &&
    s.conns[u].ref.kind == ref.kind && s.conns[u].ref.name == ref.name
  }

  /** The cluster has one entry for each of its active connections, in the order of the listing, and
      each entry has that connection's node. */
  ghost predicate Configured(s: State, ref: Ref, order: seq<nat>) {
    ref in s.clusters && |s.clusters[ref].config| == |order| &&
    (forall i, j :: 0 <= i < j < |order| ==> order[i] != order[j]) &&
    (forall u :: u in order <==> ActiveOn(s, ref, u)) &&
    forall i :: 0 <= i < |order| ==>
      order[i] in s.conns && s.clusters[ref].config[i].uid == order[i] &&
      s.clusters[ref].config[i].node == s.conns[order[i]].node
  }

  /** Listing takes down one entry for each connection listed, with that connection's node. */
  lemma ListTakesDown(s: State, order: seq<nat>)
    requires s.pc.Syncing? && IsListing(s, s.pc.c.ref, order)
    ensures var t := Next(s, ListConns(order));
      t.pc.Built? && t == s.(pc := t.pc) && t.pc.uid == s.pc.uid && t.pc.c == s.pc.c && t.pc.snap == s.pc.snap &&
      |t.pc.listing| == |order| &&
      forall i :: 0 <= i < |order| ==>
        order[i] in s.conns && t.pc.listing[i].uid == order[i] && t.pc.listing[i].node == s.conns[order[i]].node
  {}

  /** A cluster with connections never looks like one without. */
  lemma EntriesShow(config: seq<Entry>, unowned: Args)
    requires config != []
    ensures Rendered(config, unowned) != Rendered([], unowned)
  {
    BuildAt(Nodes(config), unowned, Tls);
    BuildAt(Nodes([]), unowned, Tls);
    assert Column(Tls, Nodes(config))[0] != "";
  }

  /** If the cluster is still as it was read, the update leaves the listed entries on it, with the
      user's own arguments, and changes nothing else. */
  lemma UpdateTakesOver(s: State)
    requires s.pc.Built? && s.pc.c.ref in s.clusters && s.clusters[s.pc.c.ref] == s.pc.snap
    ensures var t, ref := Next(s, UpdateCluster), s.pc.c.ref;
      t.conns == s.conns && t.clusters.Keys == s.clusters.Keys &&
      t.clusters[ref].config == s.pc.listing && t.clusters[ref].unowned == s.clusters[ref].unowned &&
      (forall r :: r in s.clusters && r != ref ==> t.clusters[r] == s.clusters[r]) &&
      t.pc == if s.pc.c.deleting then Dropping(s.pc.uid, s.pc.c) else Idle
  {
    var snap := s.pc.snap;
    if snap.config == [] && s.pc.listing != [] { EntriesShow(s.pc.listing, snap.unowned); }
    if snap.config != [] && s.pc.listing == [] { EntriesShow(snap.config, snap.unowned); }
  }

  /** Listing and update together. */
  lemma SyncConfigures(s: State, order: seq<nat>)
    requires s.pc.Syncing? && s.pc.c.ref in s.clusters && s.clusters[s.pc.c.ref] == s.pc.snap
    requires IsListing(s, s.pc.c.ref, order)
    ensures var t, ref := Next(Next(s, ListConns(order)), UpdateCluster), s.pc.c.ref;
      Configured(t, ref, order) && t.conns == s.conns && t.clusters.Keys == s.clusters.Keys &&
      t.clusters[ref].unowned == s.clusters[ref].unowned &&
      (forall r :: r in s.clusters && r != ref ==> t.clusters[r] == s.clusters[r]) &&
      t.pc == if s.pc.c.deleting then Dropping(s.pc.uid, s.pc.c) else Idle
  {
    ListTakesDown(s, order);
    UpdateTakesOver(Next(s, ListConns(order)));
  }

  /** The arguments of a configured cluster: field `i` of each owned argument is that of connection
      `order[i]`, and what the user set is as the user set it. */
  lemma SpecShows(s: State, ref: Ref, order: seq<nat>, a: Arg, i: nat, k: string)
    requires Configured(s, ref, order) && i < |order|
    requires forall j :: 0 <= j < |order| ==> order[j] in s.conns && ',' !in FieldOf(a, s.conns[order[j]].node)
    ensures var args := Rendered(s.clusters[ref].config, s.clusters[ref].unowned).0;
      (ArgKey(a) in args ==>
        |Split(args[ArgKey(a)], ',')| == |order| &&
        Shows(s.conns[order[i]].node, ArgKey(a), Split(args[ArgKey(a)], ',')[i])) &&
      (k !in OWNED ==> (k in args <==> k in s.clusters[ref].unowned) && (k in args ==> args[k] == s.clusters[ref].unowned[k]))
  {
    var nodes, unowned := Nodes(s.clusters[ref].config), s.clusters[ref].unowned;
    forall j | 0 <= j < |nodes| ensures ',' !in FieldOf(a, nodes[j]) { assert nodes[j] == s.conns[order[j]].node; }
    ArgumentShows(nodes, unowned, a, i);
    if k !in OWNED { BuildElsewhere(nodes, unowned, k); }
  }

  // ----- reconciles that run through -----

  lemma SomeListing(s: State, ref: Ref) returns (order: seq<nat>)
    ensures IsListing(s, ref, order)
  {
    var active := set u | u in s.conns && Selected(s.conns[u], ref);
    order := SomeWalk(active);
    assert forall u :: u in order <==> u in Elements(order);
  }

  lemma RunMore(s: State, steps: seq<Step>, step: Step)
    ensures Run(s, steps + [step]) == Next(Run(s, steps), step)
  {
    assert (steps + [step])[..|steps|] == steps;
  }

  /** An active connection to a cluster that is there gets labels and finalizer, and the cluster gets
      its node: after one reconcile that nothing disturbs. */
  lemma ConnectionConfigured(s: State, refs: set<Ref>, uid: nat) returns (steps: seq<Step>, order: seq<nat>)
    requires Inv(s, refs) && s.pc.Idle? && uid in s.conns && !s.conns[uid].deleting
    requires Supported(s.conns[uid].ref.kind) && s.conns[uid].ref in s.clusters
    ensures var t, ref := Run(s, steps), s.conns[uid].ref;
      t.pc.Idle? && uid in t.conns && t.conns[uid].finalizer && Configured(t, ref, order) && uid in order
  {
    var c := s.conns[uid];
    assert ConnOk(s, refs, uid, c);
    steps := [];
    assert Run(s, steps) == s;
    RunMore(s, steps, StartReconcile(uid));
    steps := steps + [StartReconcile(uid)];
    RunMore(s, steps, FetchCluster);
    steps := steps + [FetchCluster];
    var t := s.(pc := if c.finalizer then Syncing(uid, c, s.clusters[c.ref]) else NeedsFinalizer(uid, c, s.clusters[c.ref]));
    assert Run(s, steps) == t;
    if !c.finalizer {
      RunMore(s, steps, AddFinalizer);
      steps := steps + [AddFinalizer];
      t := Next(t, AddFinalizer);
    }
    assert Run(s, steps) == t && t.pc.Syncing? && t.pc.snap == t.clusters[c.ref];
    order := SomeListing(t, c.ref);
    SyncConfigures(t, order);
    RunMore(s, steps, ListConns(order));
    RunMore(s, steps + [ListConns(order)], UpdateCluster);
    steps := steps + [ListConns(order)] + [UpdateCluster];
    assert Selected(t.conns[uid], c.ref);
  }

  /** From a sync for a connection under deletion to the point where its finalizer is dropped. */
  lemma SyncToDropping(s: State, refs: set<Ref>) returns (order: seq<nat>)
    requires OneNamespace(refs) && Inv(s, refs) && s.pc.Syncing? && s.pc.c.deleting
    requires s.pc.c.ref in s.clusters && s.clusters[s.pc.c.ref] == s.pc.snap
    ensures var t := Next(Next(s, ListConns(order)), UpdateCluster);
      t.pc == Dropping(s.pc.uid, s.pc.c) && t.conns == s.conns && Inv(t, refs)
  {
    order := SomeListing(s, s.pc.c.ref);
    SyncConfigures(s, order);
    StepKeeps(s, refs, ListConns(order));
    StepKeeps(Next(s, ListConns(order)), refs, UpdateCluster);
  }

  lemma FetchForDeletion(s: State, refs: set<Ref>, uid: nat)
    requires Inv(s, refs) && OneNamespace(refs) && s.pc.Idle? && uid in s.conns
    requires s.conns[uid].deleting && s.conns[uid].finalizer && Supported(s.conns[uid].ref.kind)
    ensures var t, c := Next(Next(s, StartReconcile(uid)), FetchCluster), s.conns[uid];
      Inv(t, refs) && t == s.(pc := if c.ref in s.clusters then Syncing(uid, c, s.clusters[c.ref]) else Dropping(uid, c))
  {
    StepKeeps(s, refs, StartReconcile(uid));
    StepKeeps(Next(s, StartReconcile(uid)), refs, FetchCluster);
  }

  lemma DropEnds(s: State, refs: set<Ref>)
    requires Inv(s, refs) && s.pc.Dropping? && s.pc.uid in s.conns && s.conns[s.pc.uid] == s.pc.c
    ensures var t, uid := Next(s, DropFinalizer), s.pc.uid;
      t.pc.Idle? && NotConfigured(t, uid) &&
      if s.pc.c.foreign then uid in t.conns && !t.conns[uid].finalizer else uid !in t.conns
  {}

  lemma RunTwo(s: State, steps: seq<Step>, a: Step, b: Step)
    ensures Run(s, steps + [a] + [b]) == Next(Next(Run(s, steps), a), b)
  {
    RunMore(s, steps, a);
    RunMore(s, steps + [a], b);
  }

  /** A connection under deletion loses its finalizer, and with it is gone unless someone else holds
      it, and no cluster is configured with it: after one reconcile that nothing disturbs. */
  lemma DeletionCompletes(s: State, refs: set<Ref>, uid: nat) returns (steps: seq<Step>)
    requires OneNamespace(refs) && Inv(s, refs) && s.pc.Idle? && uid in s.conns
    requires s.conns[uid].deleting && s.conns[uid].finalizer && Supported(s.conns[uid].ref.kind)
    ensures var t := Run(s, steps);
      t.pc.Idle? && NotConfigured(t, uid) &&
      if s.conns[uid].foreign then uid in t.conns && !t.conns[uid].finalizer else uid !in t.conns
  {
    FetchForDeletion(s, refs, uid);
    RunTwo(s, [], StartReconcile(uid), FetchCluster);
    steps := [] + [StartReconcile(uid)] + [FetchCluster];
    var t := Next(Next(s, StartReconcile(uid)), FetchCluster);
    if s.conns[uid].ref in s.clusters {
      var order := SyncToDropping(t, refs);
      RunTwo(s, steps, ListConns(order), UpdateCluster);
      steps := steps + [ListConns(order)] + [UpdateCluster];
      t := Next(Next(t, ListConns(order)), UpdateCluster);
    }
    DropEnds(t, refs);
    RunMore(s, steps, DropFinalizer);
    steps := steps + [DropFinalizer];
  }

  // ----- what the worker never touches -----

  /** Versions tell states of a cluster apart, as far as the user's arguments go. */
  ghost predicate Versioned(s: State) {
    (forall r :: r in s.clusters ==> s.clusters[r].version < s.next) &&
    match s.pc
    case NeedsFinalizer(_, c, snap) => SnapRead(s, c.ref, snap)
    case Syncing(_, c, snap) => SnapRead(s, c.ref, snap)
    case Built(_, c, snap, _) => SnapRead(s, c.ref, snap)
    case _ => true
  }

  ghost predicate SnapRead(s: State, ref: Ref, snap: Cluster) {
    snap.version < s.next &&
    (ref in s.clusters && s.clusters[ref].version == snap.version ==> s.clusters[ref].unowned == snap.unowned)
  }

  lemma UpdateVersioned(s: State)
    requires Versioned(s) && s.pc.Built?
    ensures Versioned(DoUpdateCluster(s))
    ensures forall r :: r in DoUpdateCluster(s).clusters <==> r in s.clusters
    ensures forall r :: r in s.clusters ==> DoUpdateCluster(s).clusters[r].unowned == s.clusters[r].unowned
  {}

  lemma VersionedNext(s: State, step: Step)
    requires Versioned(s)
    ensures Versioned(Next(s, step))
  {
    if step.UpdateCluster? { if s.pc.Built? { UpdateVersioned(s); } }
  }

  lemma WorkerKeepsArguments(s: State, step: Step, ref: Ref)
    requires Versioned(s) && !ByUser(step)
    ensures ref in Next(s, step).clusters <==> ref in s.clusters
    ensures ref in s.clusters ==> Next(s, step).clusters[ref].unowned == s.clusters[ref].unowned
  {
    if step.UpdateCluster? { if s.pc.Built? { UpdateVersioned(s); } }
  }

  lemma {:induction false} RunVersioned(steps: seq<Step>)
    ensures Versioned(Run(INIT, steps))
  {
    if steps != [] {
      RunVersioned(steps[..|steps| - 1]);
      VersionedNext(Run(INIT, steps[..|steps| - 1]), steps[|steps| - 1]);
    }
  }

  predicate ByUser(step: Step) {
    step.CreateConn? || step.EditConn? || step.DeleteConn? || step.CreateCluster? || step.EditCluster? || step.DeleteCluster?
  }

  /** In no run does the worker create or delete a cluster, or change an argument that is the user's:
      an update built from a stale read is refused. */
  lemma UserArgumentsKept(steps: seq<Step>, step: Step, ref: Ref)
    requires !ByUser(step)
    ensures var s, t := Run(INIT, steps), Next(Run(INIT, steps), step);
      (ref in t.clusters <==> ref in s.clusters) &&
      (ref in s.clusters ==> t.clusters[ref].unowned == s.clusters[ref].unowned)
  {
    RunVersioned(steps);
    WorkerKeepsArguments(Run(INIT, steps), step, ref);
  }

  /** Nor does it change what the user set on a connection, or remove one that is not under deletion. */
  lemma UserConnectionsKept(refs: set<Ref>, steps: seq<Step>, step: Step, uid: nat)
    requires OneNamespace(refs) && AllWithin(steps, refs) && !ByUser(step)
    ensures var s, t := Run(INIT, steps), Next(Run(INIT, steps), step);
      (uid in t.conns ==> uid in s.conns) &&
      (uid in s.conns && !s.conns[uid].deleting ==> uid in t.conns) &&
      (uid in t.conns ==>
        t.conns[uid].ref == s.conns[uid].ref && t.conns[uid].node == s.conns[uid].node &&
        t.conns[uid].deleting == s.conns[uid].deleting)
  {
    RunKeeps(refs, steps);
  }

  // ----- what users may do, at any moment -----

  /** Whatever the worker is at, users create, edit and delete connections: a connection that nobody
      holds is gone at once, any other is marked and waits for its finalizers. */
  lemma UsersHandleConnections(s: State, ref: Ref, node: Node, foreign: bool, uid: nat)
    ensures var t := Next(s, CreateConn(ref, node, foreign));
      t.pc == s.pc && t.conns == s.conns[s.next := Conn(s.next, ref, node, false, false, foreign, false)]
    ensures uid in s.conns ==>
      var t := Next(s, EditConn(uid, node));
      t.pc == s.pc && uid in t.conns && t.conns[uid] == s.conns[uid].(node := node, version := s.next)
    ensures uid in s.conns && !s.conns[uid].deleting && (s.conns[uid].finalizer || s.conns[uid].foreign) ==>
      var t := Next(s, DeleteConn(uid));
      t.pc == s.pc && uid in t.conns && t.conns[uid] == s.conns[uid].(deleting := true, version := s.next)
    ensures uid in s.conns && !s.conns[uid].deleting && !s.conns[uid].finalizer && !s.conns[uid].foreign ==>
      uid !in Next(s, DeleteConn(uid)).conns && Next(s, DeleteConn(uid)).pc == s.pc
  {}

  /** And clusters: a new one has no storage nodes, an edit sets the user's own arguments and leaves the
      storage nodes, a deletion takes it away. */
  lemma UsersHandleClusters(s: State, ref: Ref, args: Args, k: string)
    ensures ref !in s.clusters ==>
      var t := Next(s, CreateCluster(ref, args));
      t.pc == s.pc && ref in t.clusters && t.clusters[ref].config == [] && t.clusters[ref].unowned == args - OWNED
    ensures ref in s.clusters ==>
      var t := Next(s, EditCluster(ref, args));
      t.pc == s.pc && ref in t.clusters && t.clusters[ref].config == s.clusters[ref].config &&
      t.clusters[ref].unowned == args - OWNED && t.clusters[ref].version == s.next
    ensures ref !in Next(s, DeleteCluster(ref)).clusters && Next(s, DeleteCluster(ref)).pc == s.pc
  {}
}
