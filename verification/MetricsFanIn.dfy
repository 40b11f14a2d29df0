/** Metrics fan-in: collector goroutines counted by a WaitGroup send messages over an unbuffered
    channel to one consumer, which files them in a tree of nested maps (`GetMetrics`,
    `CollectLocalMetricsAsync`, `CollectRemoteMetricsAsync`, `CollectMetrics`, `AddMetric`). */
module MetricsFanIn {
  import opened Text

  // ----- the tree -----

  datatype Address = Address(cluster: string, resource: string, pod: string)

  /** `None` is a nil value pointer. */
  datatype Metric = Metric(at: Address, name: string, value: Option<string>, failed: bool)
  datatype Status = Status(at: Address, kind: string, message: string)
  datatype Message = Message(metric: Option<Metric>, status: Option<Status>)

  datatype Note = Note(kind: string, message: string)
  const NO_NOTE := Note("", "")

  datatype Pod = Pod(note: Note, metrics: map<string, seq<string>>)
  datatype Resource = Resource(note: Note, pods: map<string, Pod>)
  datatype Cluster = Cluster(note: Note, resources: map<string, Resource>)
  type Tree = map<string, Cluster>

  function ClusterAt(t: Tree, k: string): Cluster { if k in t then t[k] else Cluster(NO_NOTE, map[]) }
  function ResourceAt(m: map<string, Resource>, k: string): Resource { if k in m then m[k] else Resource(NO_NOTE, map[]) }
  function PodAt(m: map<string, Pod>, k: string): Pod { if k in m then m[k] else Pod(NO_NOTE, map[]) }
  function SeriesAt(m: map<string, seq<string>>, k: string): seq<string> { if k in m then m[k] else [] }

  /** AddMetric, level by level. A metric with an empty part of its address still makes the nodes
      above that part. */
  function AddToSeries(m: map<string, seq<string>>, x: Metric): map<string, seq<string>> {
    if x.name == "" || x.value.None? then m else m[x.name := SeriesAt(m, x.name) + [x.value.value]]
  }
  function AddToPods(m: map<string, Pod>, x: Metric): map<string, Pod> {
    if x.at.pod == "" then m
    else var p := PodAt(m, x.at.pod); m[x.at.pod := p.(metrics := AddToSeries(p.metrics, x))]
  }
  function AddToResources(m: map<string, Resource>, x: Metric): map<string, Resource> {
    if x.at.resource == "" then m
    else var r := ResourceAt(m, x.at.resource); m[x.at.resource := r.(pods := AddToPods(r.pods, x))]
  }
  function AddMetric(t: Tree, x: Metric): Tree {
    if x.at.cluster == "" then t
    else var c := ClusterAt(t, x.at.cluster); t[x.at.cluster := c.(resources := AddToResources(c.resources, x))]
  }

  /** AddStatus notes the message at the deepest part of the address that is given. */
  function NoteOnPods(m: map<string, Pod>, x: Status): map<string, Pod> {
    if x.at.pod == "" then m
    else m[x.at.pod := PodAt(m, x.at.pod).(note := Note(x.kind, x.message))]
  }
  function NoteOnResources(m: map<string, Resource>, x: Status): map<string, Resource> {
    if x.at.resource == "" then m
    else
      var r := ResourceAt(m, x.at.resource);
      m[x.at.resource := if x.at.pod == "" then r.(note := Note(x.kind, x.message)) else r.(pods := NoteOnPods(r.pods, x))]
  }
  function AddStatus(t: Tree, x: Status): Tree {
    if x.at.cluster == "" then t
    else
      var c := ClusterAt(t, x.at.cluster);
      t[x.at.cluster := if x.at.resource == "" then c.(note := Note(x.kind, x.message))
                        else c.(resources := NoteOnResources(c.resources, x))]
  }

  /** One turn of the consumer: a failed metric is set aside together with the rest of its message. */
  function Consume(t: Tree, m: Message): Tree {
    if m.metric.Some? && m.metric.value.failed then t
    else
      var t' := if m.metric.Some? then AddMetric(t, m.metric.value) else t;
      if m.status.Some? then AddStatus(t', m.status.value) else t'
  }

  /** The values filed under an address and a metric name. */
  function Values(t: Tree, at: Address, name: string): seq<string> {
    ValuesInResources(ClusterAt(t, at.cluster).resources, at.resource, at.pod, name)
  }

  /** A message that carries a well-formed metric for this place. */
  predicate Fits(m: Message, at: Address, name: string) {
    m.metric.Some? && !m.metric.value.failed && m.metric.value.at == at && m.metric.value.name == name &&
    at.cluster != "" && at.resource != "" && at.pod != "" && name != "" && m.metric.value.value.Some?
  }

  function ValuesInPods(m: map<string, Pod>, pod: string, name: string): seq<string> { SeriesAt(PodAt(m, pod).metrics, name) }

  function ValuesInResources(m: map<string, Resource>, resource: string, pod: string, name: string): seq<string> {
    ValuesInPods(ResourceAt(m, resource).pods, pod, name)
  }

  predicate FitsPod(x: Metric, pod: string, name: string) {
    x.at.pod == pod && x.name == name && pod != "" && name != "" && x.value.Some?
  }

  lemma AddToPodsValues(m: map<string, Pod>, x: Metric, pod: string, name: string)
    ensures ValuesInPods(AddToPods(m, x), pod, name) ==
            ValuesInPods(m, pod, name) + if FitsPod(x, pod, name) then [x.value.value] else []
  {}

  lemma AddToResourcesValues(m: map<string, Resource>, x: Metric, resource: string, pod: string, name: string)
    ensures ValuesInResources(AddToResources(m, x), resource, pod, name) ==
            ValuesInResources(m, resource, pod, name) +
            if x.at.resource == resource && resource != "" && FitsPod(x, pod, name) then [x.value.value] else []
  {
    AddToPodsValues(ResourceAt(m, x.at.resource).pods, x, pod, name);
  }

  lemma AddMetricValues(t: Tree, x: Metric, at: Address, name: string)
    ensures Values(AddMetric(t, x), at, name) ==
            Values(t, at, name) + if Fits(Message(Some(x.(failed := false)), None), at, name) then [x.value.value] else []
  {
    AddToResourcesValues(ClusterAt(t, x.at.cluster).resources, x, at.resource, at.pod, name);
  }

  lemma AddStatusValues(t: Tree, x: Status, at: Address, name: string)
    ensures Values(AddStatus(t, x), at, name) == Values(t, at, name)
  {}

  /** Which nodes there are: a metric or a status makes those of its address, down to the first part
      that is empty, and none disappears. */
  predicate HasCluster(t: Tree, c: string) { c in t }
  predicate HasResource(t: Tree, c: string, r: string) { c in t && r in t[c].resources }
  predicate HasPod(t: Tree, c: string, r: string, p: string) { HasResource(t, c, r) && p in t[c].resources[r].pods }

  predicate MakesPod(at: Address, c: string, r: string, p: string) { at == Address(c, r, p) && c != "" && r != "" && p != "" }

  lemma MetricMakes(t: Tree, x: Metric, c: string, r: string, p: string)
    ensures HasCluster(AddMetric(t, x), c) <==> HasCluster(t, c) || (x.at.cluster == c && c != "")
    ensures HasResource(AddMetric(t, x), c, r) <==>
      HasResource(t, c, r) || (x.at.cluster == c && x.at.resource == r && c != "" && r != "")
    ensures HasPod(AddMetric(t, x), c, r, p) <==> HasPod(t, c, r, p) || MakesPod(x.at, c, r, p)
  {}

  lemma StatusMakes(t: Tree, x: Status, c: string, r: string, p: string)
    ensures HasCluster(AddStatus(t, x), c) <==> HasCluster(t, c) || (x.at.cluster == c && c != "")
    ensures HasResource(AddStatus(t, x), c, r) <==>
      HasResource(t, c, r) || (x.at.cluster == c && x.at.resource == r && c != "" && r != "")
    ensures HasPod(AddStatus(t, x), c, r, p) <==> HasPod(t, c, r, p) || MakesPod(x.at, c, r, p)
  {}

  /** The note at an address; an address ends at its first empty part. */
  function NoteAt(t: Tree, at: Address): Note {
    if at.resource == "" then ClusterAt(t, at.cluster).note
    else
      var r := ResourceAt(ClusterAt(t, at.cluster).resources, at.resource);
      if at.pod == "" then r.note else PodAt(r.pods, at.pod).note
  }

  /** An address that names a node. */
  predicate Proper(at: Address) { at.cluster != "" && (at.resource == "" ==> at.pod == "") }

  function Shortened(at: Address): Address { if at.resource == "" then at.(pod := "") else at }

  /** A status is noted at its own address, and at no other; a metric changes no note. */
  lemma StatusNoted(t: Tree, x: Status, at: Address)
    requires Proper(at)
    ensures NoteAt(AddStatus(t, x), at) == if x.at.cluster != "" && Shortened(x.at) == at then Note(x.kind, x.message) else NoteAt(t, at)
  {}

  lemma MetricNotesNothing(t: Tree, x: Metric, at: Address)
    requires Proper(at)
    ensures NoteAt(AddMetric(t, x), at) == NoteAt(t, at)
  {}

  lemma ConsumeValues(t: Tree, m: Message, at: Address, name: string)
    ensures Values(Consume(t, m), at, name) ==
            Values(t, at, name) + if Fits(m, at, name) then [m.metric.value.value.value] else []
  {
    if m.metric.Some? && !m.metric.value.failed { AddMetricValues(t, m.metric.value, at, name); }
    if m.status.Some? {
      AddStatusValues(if m.metric.Some? && !m.metric.value.failed then AddMetric(t, m.metric.value) else t,
                      m.status.value, at, name);
    }
  }

  /** A failed metric is dropped with the status that comes with it; any other status is noted at its
      own address only. */
  lemma ConsumeNotes(t: Tree, m: Message, at: Address)
    requires Proper(at)
    ensures NoteAt(Consume(t, m), at) ==
      if !(m.metric.Some? && m.metric.value.failed) && m.status.Some? &&
         m.status.value.at.cluster != "" && Shortened(m.status.value.at) == at
      then Note(m.status.value.kind, m.status.value.message) else NoteAt(t, at)
  {
    if !(m.metric.Some? && m.metric.value.failed) {
      var t' := if m.metric.Some? then AddMetric(t, m.metric.value) else t;
      if m.metric.Some? { MetricNotesNothing(t, m.metric.value, at); }
      if m.status.Some? { StatusNoted(t', m.status.value, at); }
    }
  }

  function Filed(sent: seq<Message>): Tree {
    if sent == [] then map[] else Consume(Filed(sent[..|sent| - 1]), sent[|sent| - 1])
  }

  /** The well-formed values for one place among the messages, in order. */
  function Expected(sent: seq<Message>, at: Address, name: string): seq<string> {
    if sent == [] then []
    else
      var m := sent[|sent| - 1];
      Expected(sent[..|sent| - 1], at, name) + if Fits(m, at, name) then [m.metric.value.value.value] else []
  }

  /** The tree holds, at every place, exactly the well-formed values that were sent for it. */
  lemma {:induction false} FiledValues(sent: seq<Message>, at: Address, name: string)
    ensures Values(Filed(sent), at, name) == Expected(sent, at, name)
  {
    if sent != [] {
      FiledValues(sent[..|sent| - 1], at, name);
      ConsumeValues(Filed(sent[..|sent| - 1]), sent[|sent| - 1], at, name);
    }
  }

  // ----- the goroutines -----

  /** What a collector goroutine has left to do. */
  datatype Act = Send(m: Message) | Spawn(acts: seq<Act>)
  type Task = seq<Act>

  datatype Main = Launching(remote: seq<Task>) | Consuming | Returned
  datatype Closer = NotStarted | Waiting | Closed

  datatype State = State(main: Main, closer: Closer, live: seq<Task>, wg: int, tree: Tree, sent: seq<Message>)

  /** The local collector is started first, then one for each remote cluster as it is found. */
  function Init(local: Task, remote: seq<Task>): State {
    State(Launching(remote), NotStarted, [local], 1, map[], [])
  }

  datatype Step =
    | Launch              // h.wg.Add(1) and a collector for the next remote cluster
    | StartConsuming      // the closer goroutine is started, the receive loop begins
    | GoSpawn(i: nat)     // a collector starts a pod goroutine
    | Deliver(i: nat)     // a send meets the consumer
    | GoExit(i: nat)      // h.wg.Done()
    | CloseChannel        // h.wg.Wait() returned
    | Return              // the channel is closed and drained

  predicate Enabled(s: State, step: Step) {
    match step
    case Launch => s.main.Launching? && s.main.remote != []
    case StartConsuming => s.main.Launching? && s.main.remote == []
    case GoSpawn(i) => i < |s.live| && s.live[i] != [] && s.live[i][0].Spawn?
    case Deliver(i) => i < |s.live| && s.live[i] != [] && s.live[i][0].Send? && s.main.Consuming?
    case GoExit(i) => i < |s.live| && s.live[i] == []
    case CloseChannel => s.closer.Waiting? && s.wg == 0
    case Return => s.main.Consuming? && s.closer.Closed?
  }

  function Next(s: State, step: Step): State
    requires Enabled(s, step)
  {
    match step
    case Launch => s.(main := Launching(s.main.remote[1..]), live := s.live + [s.main.remote[0]], wg := s.wg + 1)
    case StartConsuming => s.(main := Consuming, closer := Waiting)
    case GoSpawn(i) => s.(live := s.live[i := s.live[i][1..]] + [s.live[i][0].acts], wg := s.wg + 1)
    case Deliver(i) =>
      s.(live := s.live[i := s.live[i][1..]], tree := Consume(s.tree, s.live[i][0].m), sent := s.sent + [s.live[i][0].m])
    case GoExit(i) => s.(live := s.live[..i] + s.live[i + 1..], wg := s.wg - 1)
    case CloseChannel => s.(closer := Closed)
    case Return => s.(main := Returned)
  }

  function After(local: Task, remote: seq<Task>, steps: seq<Step>): Option<State> {
    if steps == [] then Some(Init(local, remote))
    else
      var last := steps[|steps| - 1];
      match After(local, remote, steps[..|steps| - 1])
      case None => None
      case Some(mid) => if Enabled(mid, last) then Some(Next(mid, last)) else None
  }

  // ----- what every interleaving keeps -----

  /** All messages that a goroutine will still send, itself or through what it starts. */
  function TaskMessages(t: Task): multiset<Message> {
    if t == [] then multiset{} else ActMessages(t[0]) + TaskMessages(t[1..])
  }

  function ActMessages(a: Act): multiset<Message> {
    match a
    case Send(m) => multiset{m}
    case Spawn(acts) => TaskMessages(acts)
  }

  function Pending(ts: seq<Task>): multiset<Message> {
    if ts == [] then multiset{} else Pending(ts[..|ts| - 1]) + TaskMessages(ts[|ts| - 1])
  }

  function Unlaunched(s: State): seq<Task> { if s.main.Launching? then s.main.remote else [] }

  /** The counter is the number of live goroutines; the closer waits only once all remote collectors
      are launched; a closed channel has no goroutine left that could send; no message is lost. */
  ghost predicate Inv(all: multiset<Message>, s: State) {
    s.wg == |s.live| && (s.main.Launching? <==> s.closer.NotStarted?) &&
    (s.closer.Closed? ==> s.live == []) && (s.main.Returned? ==> s.closer.Closed?) &&
    s.tree == Filed(s.sent) &&
    Pending(Unlaunched(s)) + Pending(s.live) + multiset(s.sent) == all
  }

  lemma PendingAppend(ts: seq<Task>, t: Task)
    ensures Pending(ts + [t]) == Pending(ts) + TaskMessages(t)
  {
    assert (ts + [t])[..|ts|] == ts;
  }

  function Without(ts: seq<Task>, i: nat): seq<Task>
    requires i < |ts|
  {
    ts[..i] + ts[i + 1..]
  }

  lemma WithoutLast(ts: seq<Task>, i: nat)
    requires i < |ts| - 1
    ensures Without(ts, i) == Without(ts[..|ts| - 1], i) + [ts[|ts| - 1]]
  {
    var init := ts[..|ts| - 1];
    assert init[..i] == ts[..i];
    assert ts[i + 1..] == init[i + 1..] + [ts[|ts| - 1]];
  }

  lemma Swap(x: multiset<Message>, y: multiset<Message>, z: multiset<Message>)
    ensures x + y + z == x + z + y
  {}

  lemma {:induction false} PendingWithout(ts: seq<Task>, i: nat)
    requires i < |ts|
    ensures Pending(ts) == Pending(Without(ts, i)) + TaskMessages(ts[i])
  {
    var n := |ts| - 1;
    if i == n {
      assert Without(ts, i) == ts[..n];
    } else {
      PendingWithout(ts[..n], i);
      WithoutLast(ts, i);
      PendingAppend(Without(ts[..n], i), ts[n]);
      Swap(Pending(Without(ts[..n], i)), TaskMessages(ts[i]), TaskMessages(ts[n]));
    }
  }

  /** A goroutine moves on by one act. */
  lemma PendingAdvance(ts: seq<Task>, i: nat)
    requires i < |ts| && ts[i] != []
    ensures Pending(ts) == Pending(ts[i := ts[i][1..]]) + ActMessages(ts[i][0])
  {
    var moved := ts[i := ts[i][1..]];
    PendingWithout(ts, i);
    PendingWithout(moved, i);
    assert Without(moved, i) == Without(ts, i);
  }

  lemma FiledSnoc(sent: seq<Message>, m: Message)
    ensures Filed(sent + [m]) == Consume(Filed(sent), m)
  {
    assert (sent + [m])[..|sent|] == sent;
  }

  lemma LaunchKeeps(all: multiset<Message>, s: State)
    requires Inv(all, s) && Enabled(s, Launch)
    ensures Inv(all, Next(s, Launch))
  {
    PendingWithout(s.main.remote, 0);
    assert Without(s.main.remote, 0) == s.main.remote[1..];
    PendingAppend(s.live, s.main.remote[0]);
  }

  lemma SpawnKeeps(all: multiset<Message>, s: State, i: nat)
    requires Inv(all, s) && Enabled(s, GoSpawn(i))
    ensures Inv(all, Next(s, GoSpawn(i)))
  {
    PendingAdvance(s.live, i);
    PendingAppend(s.live[i := s.live[i][1..]], s.live[i][0].acts);
  }

  lemma DeliverKeeps(all: multiset<Message>, s: State, i: nat)
    requires Inv(all, s) && Enabled(s, Deliver(i))
    ensures Inv(all, Next(s, Deliver(i)))
  {
    PendingAdvance(s.live, i);
    FiledSnoc(s.sent, s.live[i][0].m);
    assert multiset(s.sent + [s.live[i][0].m]) == multiset(s.sent) + multiset{s.live[i][0].m};
  }

  lemma StepKeeps(all: multiset<Message>, s: State, step: Step)
    requires Inv(all, s) && Enabled(s, step)
    ensures Inv(all, Next(s, step))
  {
    match step
    case Launch => LaunchKeeps(all, s);
    case GoSpawn(i) => SpawnKeeps(all, s, i);
    case Deliver(i) => DeliverKeeps(all, s, i);
    case GoExit(i) =>
      PendingWithout(s.live, i);
      assert TaskMessages(s.live[i]) == multiset{};
    case _ =>
  }

  function AllMessages(local: Task, remote: seq<Task>): multiset<Message> { Pending(remote) + TaskMessages(local) }

  /** Every interleaving keeps the invariant. */
  lemma {:induction false} RunKeeps(local: Task, remote: seq<Task>, steps: seq<Step>, s: State)
    requires After(local, remote, steps) == Some(s)
    ensures Inv(AllMessages(local, remote), s)
  {
    if steps == [] {
      PendingAppend([], local);
      assert [] + [local] == [local];
    } else {
      var mid := After(local, remote, steps[..|steps| - 1]).value;
      RunKeeps(local, remote, steps[..|steps| - 1], mid);
      StepKeeps(AllMessages(local, remote), mid, steps[|steps| - 1]);
    }
  }

  /** In every interleaving the WaitGroup counts the live collectors, and once the channel is closed
      nobody is left who could send on it. */
  lemma NoSendAfterClose(local: Task, remote: seq<Task>, steps: seq<Step>, s: State)
    requires After(local, remote, steps) == Some(s)
    ensures s.wg == |s.live| && (s.closer.Closed? ==> s.live == [])
    ensures s.closer.Closed? ==> forall step :: Enabled(s, step) ==> step.Return?
  {
    RunKeeps(local, remote, steps, s);
  }

  lemma {:induction false} ExpectedSplit(a: seq<Message>, b: seq<Message>, at: Address, name: string)
    ensures Expected(a + b, at, name) == Expected(a, at, name) + Expected(b, at, name)
  {
    if b == [] {
      assert a + b == a;
    } else {
      assert (a + b)[..|a + b| - 1] == a + b[..|b| - 1];
      ExpectedSplit(a, b[..|b| - 1], at, name);
    }
  }

  function DropAt(b: seq<Message>, i: nat): seq<Message>
    requires i < |b|
  {
    b[..i] + b[i + 1..]
  }

  lemma DropMultiset(b: seq<Message>, i: nat)
    requires i < |b|
    ensures multiset(b) == multiset(DropAt(b, i)) + multiset{b[i]}
  {
    assert b == b[..i] + ([b[i]] + b[i + 1..]);
  }

  lemma ExpectedDrop(b: seq<Message>, i: nat, at: Address, name: string)
    requires i < |b|
    ensures multiset(Expected(b, at, name)) ==
            multiset(Expected(DropAt(b, i), at, name)) + multiset(Expected([b[i]], at, name))
  {
    assert b == b[..i] + ([b[i]] + b[i + 1..]);
    ExpectedSplit(b[..i], b[i + 1..], at, name);
    ExpectedSplit(b[..i], [b[i]] + b[i + 1..], at, name);
    ExpectedSplit([b[i]], b[i + 1..], at, name);
  }

  lemma Matching(a: seq<Message>, b: seq<Message>) returns (i: nat)
    requires a != [] && multiset(a) == multiset(b)
    ensures i < |b| && b[i] == a[0] && multiset(DropAt(a, 0)) == multiset(DropAt(b, i))
  {
    assert a[0] in multiset(b);
    i :| 0 <= i < |b| && b[i] == a[0];
    DropMultiset(a, 0);
    DropMultiset(b, i);
    Cancel(multiset(DropAt(a, 0)), multiset(DropAt(b, i)), multiset{a[0]});
  }

  /** Reordering the messages only reorders the values of a place. */
  lemma {:induction false} ExpectedPermuted(a: seq<Message>, b: seq<Message>, at: Address, name: string)
    requires multiset(a) == multiset(b)
    ensures multiset(Expected(a, at, name)) == multiset(Expected(b, at, name))
    decreases |a|
  {
    if a == [] {
      assert |multiset(b)| == |multiset(a)| == 0;
    } else {
      var i := Matching(a, b);
      ExpectedDrop(a, 0, at, name);
      ExpectedDrop(b, i, at, name);
      ExpectedPermuted(DropAt(a, 0), DropAt(b, i), at, name);
    }
  }

  lemma Cancel(x: multiset<Message>, y: multiset<Message>, z: multiset<Message>)
    requires x + z == y + z
    ensures x == y
  {
    assert x == (x + z) - z && y == (y + z) - z;
  }

  /** When GetMetrics returns, every message of every collector has been received, and the tree holds
      at every place the values of some list of exactly those messages. */
  lemma FanInComplete(local: Task, remote: seq<Task>, steps: seq<Step>, s: State, at: Address, name: string)
    requires After(local, remote, steps) == Some(s) && s.main.Returned?
    ensures multiset(s.sent) == AllMessages(local, remote)
    ensures Values(s.tree, at, name) == Expected(s.sent, at, name)
  {
    RunKeeps(local, remote, steps, s);
    FiledValues(s.sent, at, name);
  }

  /** Any two interleavings of the same collectors file the same multiset of values at every place. */
  lemma FanInDeterministic(local: Task, remote: seq<Task>, steps: seq<Step>, s: State, steps': seq<Step>, s': State,
                           at: Address, name: string)
    requires After(local, remote, steps) == Some(s) && After(local, remote, steps') == Some(s')
    requires s.main.Returned? && s'.main.Returned?
    ensures multiset(Values(s.tree, at, name)) == multiset(Values(s'.tree, at, name))
  {
    FanInComplete(local, remote, steps, s, at, name);
    FanInComplete(local, remote, steps', s', at, name);
    ExpectedPermuted(s.sent, s'.sent, at, name);
  }

  // ----- GetMetrics returns -----

  function Work(t: Task): nat {
    if t == [] then 1 else ActWork(t[0]) + Work(t[1..])
  }

  function ActWork(a: Act): nat {
    match a
    case Send(_) => 1
    case Spawn(acts) => 1 + Work(acts)
  }

  function TotalWork(ts: seq<Task>): nat {
    if ts == [] then 0 else TotalWork(ts[..|ts| - 1]) + Work(ts[|ts| - 1])
  }

  function Fuel(s: State): nat {
    TotalWork(Unlaunched(s)) + |Unlaunched(s)| + TotalWork(s.live) +
    (if s.main.Launching? then 3 else if s.closer.Waiting? then 2 else if s.main.Consuming? then 1 else 0)
  }

  lemma WorkAppend(ts: seq<Task>, t: Task)
    ensures TotalWork(ts + [t]) == TotalWork(ts) + Work(t)
  {
    assert (ts + [t])[..|ts|] == ts;
  }

  lemma {:induction false} WorkWithout(ts: seq<Task>, i: nat)
    requires i < |ts|
    ensures TotalWork(ts) == TotalWork(Without(ts, i)) + Work(ts[i])
  {
    var n := |ts| - 1;
    if i == n {
      assert Without(ts, i) == ts[..n];
    } else {
      WorkWithout(ts[..n], i);
      WithoutLast(ts, i);
      WorkAppend(Without(ts[..n], i), ts[n]);
    }
  }

  lemma WorkUpdate(ts: seq<Task>, i: nat, t: Task)
    requires i < |ts|
    ensures TotalWork(ts[i := t]) + Work(ts[i]) == TotalWork(ts) + Work(t)
  {
    WorkWithout(ts, i);
    WorkWithout(ts[i := t], i);
    assert Without(ts[i := t], i) == Without(ts, i);
  }

  lemma StepUsesFuel(all: multiset<Message>, s: State, step: Step)
    requires Inv(all, s) && Enabled(s, step)
    ensures Fuel(Next(s, step)) < Fuel(s)
  {
    match step
    case Launch =>
      WorkWithout(s.main.remote, 0);
      assert Without(s.main.remote, 0) == s.main.remote[1..];
      WorkAppend(s.live, s.main.remote[0]);
    case GoSpawn(i) =>
      WorkUpdate(s.live, i, s.live[i][1..]);
      WorkAppend(s.live[i := s.live[i][1..]], s.live[i][0].acts);
    case Deliver(i) => WorkUpdate(s.live, i, s.live[i][1..]);
    case GoExit(i) => WorkWithout(s.live, i);
    case _ =>
  }

  /** No interleaving is longer than the work there is. */
  lemma {:induction false} RunsAreBounded(local: Task, remote: seq<Task>, steps: seq<Step>, s: State)
    requires After(local, remote, steps) == Some(s)
    ensures |steps| + Fuel(s) <= Fuel(Init(local, remote))
  {
    if steps != [] {
      var mid := After(local, remote, steps[..|steps| - 1]).value;
      RunsAreBounded(local, remote, steps[..|steps| - 1], mid);
      RunKeeps(local, remote, steps[..|steps| - 1], mid);
      StepUsesFuel(AllMessages(local, remote), mid, steps[|steps| - 1]);
    }
  }

  /** Nobody waits forever: an interleaving that cannot be continued has returned. */
  lemma NeverStuck(local: Task, remote: seq<Task>, steps: seq<Step>, s: State)
    requires After(local, remote, steps) == Some(s) && !s.main.Returned?
    ensures exists step :: Enabled(s, step)
  {
    RunKeeps(local, remote, steps, s);
    if s.main.Launching? {
      assert Enabled(s, if s.main.remote == [] then StartConsuming else Launch);
    } else if s.live != [] {
      var t := s.live[0];
      assert Enabled(s, if t == [] then GoExit(0) else if t[0].Spawn? then GoSpawn(0) else Deliver(0));
    } else if s.closer.Waiting? {
      assert Enabled(s, CloseChannel);
    } else {
      assert Enabled(s, Return);
    }
  }

  /** No collector is held back by another: each may make its own next move at any time, except that a
      send waits for the consumer. */
  lemma AnyMayMove(s: State, i: nat)
    requires i < |s.live|
    ensures s.live[i] == [] ==> Enabled(s, GoExit(i)) && |Next(s, GoExit(i)).live| == |s.live| - 1
    ensures s.live[i] != [] && s.live[i][0].Spawn? ==>
      Enabled(s, GoSpawn(i)) && Next(s, GoSpawn(i)).live == s.live[i := s.live[i][1..]] + [s.live[i][0].acts]
    ensures s.live[i] != [] && s.live[i][0].Send? && s.main.Consuming? ==>
      Enabled(s, Deliver(i)) && Next(s, Deliver(i)).sent == s.sent + [s.live[i][0].m] &&
      Next(s, Deliver(i)).live == s.live[i := s.live[i][1..]]
  {}

  // ----- the consumer's tree, updated level by level -----

  /** MetricsMap.Add */
  method AddSeries(m: map<string, seq<string>>, x: Metric) returns (r: map<string, seq<string>>)
    ensures r == AddToSeries(m, x)
  {
    r := m;
    if x.name == "" || x.value.None? { return; }
    if x.name !in r { r := r[x.name := []]; }
    r := r[x.name := r[x.name] + [x.value.value]];
  }

  /** PodMap.AddMetric */
  method AddPod(m: map<string, Pod>, x: Metric) returns (r: map<string, Pod>)
    ensures r == AddToPods(m, x)
  {
    r := m;
    if x.at.pod == "" { return; }
    if x.at.pod !in r { r := r[x.at.pod := Pod(NO_NOTE, map[])]; }
    var series := AddSeries(r[x.at.pod].metrics, x);
    r := r[x.at.pod := r[x.at.pod].(metrics := series)];
  }

  /** CustomResourceMap.AddMetric */
  method AddResource(m: map<string, Resource>, x: Metric) returns (r: map<string, Resource>)
    ensures r == AddToResources(m, x)
  {
    r := m;
    if x.at.resource == "" { return; }
    if x.at.resource !in r { r := r[x.at.resource := Resource(NO_NOTE, map[])]; }
    var pods := AddPod(r[x.at.resource].pods, x);
    r := r[x.at.resource := r[x.at.resource].(pods := pods)];
  }

  /** PodMap.AddStatus */
  method NotePod(m: map<string, Pod>, x: Status) returns (r: map<string, Pod>)
    ensures r == NoteOnPods(m, x)
  {
    r := m;
    if x.at.pod == "" { return; }
    if x.at.pod !in r { r := r[x.at.pod := Pod(NO_NOTE, map[])]; }
    r := r[x.at.pod := r[x.at.pod].(note := Note(x.kind, x.message))];
  }

  /** CustomResourceMap.AddStatus */
  method NoteResource(m: map<string, Resource>, x: Status) returns (r: map<string, Resource>)
    ensures r == NoteOnResources(m, x)
  {
    r := m;
    if x.at.resource == "" { return; }
    if x.at.resource !in r { r := r[x.at.resource := Resource(NO_NOTE, map[])]; }
    if x.at.pod == "" {
      r := r[x.at.resource := r[x.at.resource].(note := Note(x.kind, x.message))];
    } else {
      var pods := NotePod(r[x.at.resource].pods, x);
      r := r[x.at.resource := r[x.at.resource].(pods := pods)];
    }
  }

  class ClusterMap {
    var clusters: Tree

    constructor ()
      ensures clusters == map[]
    {
      clusters := map[];
    }

    method Add(x: Metric)
      modifies this
      ensures clusters == AddMetric(old(clusters), x)
    {
      if x.at.cluster == "" { return; }
      if x.at.cluster !in clusters {
        clusters := clusters[x.at.cluster := Cluster(NO_NOTE, map[])];
      }
      var c := clusters[x.at.cluster];
      var resources := AddResource(c.resources, x);
      clusters := clusters[x.at.cluster := c.(resources := resources)];
    }

    method AddNote(x: Status)
      modifies this
      ensures clusters == AddStatus(old(clusters), x)
    {
      if x.at.cluster == "" { return; }
      if x.at.cluster !in clusters {
        clusters := clusters[x.at.cluster := Cluster(NO_NOTE, map[])];
      }
      var c := clusters[x.at.cluster];
      if x.at.resource == "" {
        clusters := clusters[x.at.cluster := c.(note := Note(x.kind, x.message))];
      } else {
        var resources := NoteResource(c.resources, x);
        clusters := clusters[x.at.cluster := c.(resources := resources)];
      }
    }

    /** The receive loop of GetMetrics over the messages in the order they arrive. */
    method Receive(messages: seq<Message>)
      requires clusters == map[]
      modifies this
      ensures clusters == Filed(messages)
    {
      var i := 0;
      while i < |messages|
        invariant 0 <= i <= |messages| && clusters == Filed(messages[..i])
      {
        var m := messages[i];
        assert messages[..i + 1][..i] == messages[..i];
        i := i + 1;
        if m.metric.Some? {
          if m.metric.value.failed { continue; }
          Add(m.metric.value);
        }
        if m.status.Some? { AddNote(m.status.value); }
      }
      assert messages[..i] == messages;
    }
  }
}
