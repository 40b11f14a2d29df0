/** Whole runs of the audit exporter (`Run`, `collectWindows`, `tenantsForStream`): which windows a
    run takes on, what any sequence of runs keeps, and when the manifest chain is complete. */
module AuditRuns {
  import opened ExportSite
  import opened ExportProtocol

  const HOUR: int := 3_600_000_000_000
  const PLATFORM_STREAM := "platform-audit-log"
  const PLATFORM_TENANT := "PLATFORM"

  // ----- window arithmetic: times in nanoseconds, window bounds in hours -----

  /** The end of the latest hour to export: the last full hour, or the one before while the last one
      is younger than the delay. */
  function LastHourEnd(now: int, delay: int): int {
    var end := now / HOUR;
    if now - end * HOUR < delay then end - 1 else end
  }

  /** For delays up to an hour this is the latest hour that ended at least `delay` ago; a longer delay
      counts as an hour, a negative one as none. */
  lemma LatestEligible(now: int, delay: int)
    ensures var d := if delay < 0 then 0 else if delay > HOUR then HOUR else delay;
      LastHourEnd(now, delay) * HOUR + d <= now < (LastHourEnd(now, delay) + 1) * HOUR + d
  {}

  /** The delay is honoured at every clock reading exactly when it is at most an hour: a longer
      delay is cut short, because only one hour is ever stepped back. */
  lemma DelayHonoured(delay: int)
    ensures (forall now :: LastHourEnd(now, delay) * HOUR + delay <= now) <==> delay <= HOUR
  {
    if delay <= HOUR {
      forall now ensures LastHourEnd(now, delay) * HOUR + delay <= now {}
    } else {
      assert !(LastHourEnd(0, delay) * HOUR + delay <= 0);
    }
  }

  /** Clocks at most `hours` apart see last hours at most `hours` apart. */
  lemma LastHourSteps(now: int, later: int, delay: int, hours: int)
    requires 0 <= delay <= HOUR && now <= later <= now + hours * HOUR
    ensures LastHourEnd(now, delay) <= LastHourEnd(later, delay) <= LastHourEnd(now, delay) + hours
  {
    LatestEligible(now, delay);
    LatestEligible(later, delay);
    var e, e' := LastHourEnd(now, delay), LastHourEnd(later, delay);
    assert (e' + 1) * HOUR > e * HOUR;
    assert e' * HOUR < (e + 1 + hours) * HOUR;
  }

  // ----- collecting windows -----

  function TenantsFor(cfg: Config, discovered: seq<string>, stream: string): seq<string> {
    if stream == PLATFORM_STREAM then [PLATFORM_TENANT]
    else if |cfg.tenants| > 0 then cfg.tenants
    else discovered
  }

  function HourWindows(st: Store, s: string, t: string, from: int, upTo: int): seq<Window>
    decreases upTo - from
  {
    if upTo <= from then []
    else
      var w := Window(s, t, upTo - 1);
      HourWindows(st, s, t, from, upTo - 1) + if Stored(st, w) then [] else [w]
  }

  function TenantWindows(st: Store, s: string, ts: seq<string>, from: int, upTo: int): seq<Window> {
    if ts == [] then []
    else TenantWindows(st, s, ts[..|ts| - 1], from, upTo) + HourWindows(st, s, ts[|ts| - 1], from, upTo)
  }

  function StreamWindows(st: Store, cfg: Config, discovered: seq<string>, ss: seq<string>, from: int, upTo: int): seq<Window> {
    if ss == [] then []
    else
      var s := ss[|ss| - 1];
      StreamWindows(st, cfg, discovered, ss[..|ss| - 1], from, upTo) +
      TenantWindows(st, s, TenantsFor(cfg, discovered, s), from, upTo)
  }

  /** collectWindows: three nested loops over streams, tenants and hours. */
  method CollectWindows(objects: map<Key, string>, ghost st: Store, cfg: Config, discovered: seq<string>, from: int, upTo: int)
    returns (windows: seq<Window>)
    requires st.objects == objects
    ensures windows == StreamWindows(st, cfg, discovered, cfg.streams, from, upTo)
  {
    windows := [];
    var i := 0;
    while i < |cfg.streams|
      invariant 0 <= i <= |cfg.streams|
      invariant windows == StreamWindows(st, cfg, discovered, cfg.streams[..i], from, upTo)
    {
      var s := cfg.streams[i];
      var block := CollectTenants(objects, st, s, TenantsFor(cfg, discovered, s), from, upTo);
      assert cfg.streams[..i + 1][..i] == cfg.streams[..i];
      windows := windows + block;
      i := i + 1;
    }
    assert cfg.streams[..i] == cfg.streams;
  }

  method CollectTenants(objects: map<Key, string>, ghost st: Store, s: string, tenants: seq<string>, from: int, upTo: int)
    returns (windows: seq<Window>)
    requires st.objects == objects
    ensures windows == TenantWindows(st, s, tenants, from, upTo)
  {
    windows := [];
    var i := 0;
    while i < |tenants|
      invariant 0 <= i <= |tenants|
      invariant windows == TenantWindows(st, s, tenants[..i], from, upTo)
    {
      var block := CollectHours(objects, st, s, tenants[i], from, upTo);
      assert tenants[..i + 1][..i] == tenants[..i];
      windows := windows + block;
      i := i + 1;
    }
    assert tenants[..i] == tenants;
  }

  method CollectHours(objects: map<Key, string>, ghost st: Store, s: string, t: string, from: int, upTo: int)
    returns (windows: seq<Window>)
    requires st.objects == objects
    ensures windows == HourWindows(st, s, t, from, upTo)
  {
    windows := [];
    var start := from;
    while start < upTo
      invariant start == from || from < start <= upTo
      invariant windows == HourWindows(st, s, t, from, start)
    {
      var w := Window(s, t, start);
      if ManifestKey(w) !in objects { windows := windows + [w]; }
      start := start + 1;
    }
  }

  lemma {:induction false} HourWindowsMember(st: Store, s: string, t: string, from: int, upTo: int, w: Window)
    ensures w in HourWindows(st, s, t, from, upTo) <==>
            w.stream == s && w.tenant == t && from <= w.hour < upTo && !Stored(st, w)
    decreases upTo - from
  {
    if from < upTo { HourWindowsMember(st, s, t, from, upTo - 1, w); }
  }

  lemma {:induction false} TenantWindowsMember(st: Store, s: string, ts: seq<string>, from: int, upTo: int, w: Window)
    ensures w in TenantWindows(st, s, ts, from, upTo) <==>
            w.stream == s && w.tenant in ts && from <= w.hour < upTo && !Stored(st, w)
  {
    if ts != [] {
      TenantWindowsMember(st, s, ts[..|ts| - 1], from, upTo, w);
      HourWindowsMember(st, s, ts[|ts| - 1], from, upTo, w);
      assert ts == ts[..|ts| - 1] + [ts[|ts| - 1]];
    }
  }

  /** A run takes on exactly the windows of configured streams and their tenants, within the
      catch-up span, that have no manifest yet. */
  lemma {:induction false} StreamWindowsMember(st: Store, cfg: Config, d: seq<string>, ss: seq<string>, from: int, upTo: int, w: Window)
    ensures w in StreamWindows(st, cfg, d, ss, from, upTo) <==>
            w.stream in ss && w.tenant in TenantsFor(cfg, d, w.stream) && from <= w.hour < upTo && !Stored(st, w)
  {
    if ss != [] {
      var s := ss[|ss| - 1];
      StreamWindowsMember(st, cfg, d, ss[..|ss| - 1], from, upTo, w);
      TenantWindowsMember(st, s, TenantsFor(cfg, d, s), from, upTo, w);
      assert ss == ss[..|ss| - 1] + [s];
    }
  }

  /** The hours of one stream and tenant are listed in order, each once. */
  lemma {:induction false} HoursIncrease(st: Store, s: string, t: string, from: int, upTo: int, i: nat, j: nat)
    requires i < j < |HourWindows(st, s, t, from, upTo)|
    ensures HourWindows(st, s, t, from, upTo)[i].hour < HourWindows(st, s, t, from, upTo)[j].hour
    decreases upTo - from
  {
    if from < upTo {
      var init := HourWindows(st, s, t, from, upTo - 1);
      if j < |init| {
        HoursIncrease(st, s, t, from, upTo - 1, i, j);
      } else {
        HourWindowsMember(st, s, t, from, upTo - 1, init[i]);
      }
    }
  }

  // ----- runs -----

  /** One run: its configuration and clock, and the world's answers, window by window. */
  datatype RunInput = RunInput(
    cfg: Config, now: int, bucketLocked: bool, collectFails: bool, discovered: seq<string>,
    cancelled: nat -> bool, envs: nat -> Env)

  function UpTo(r: RunInput): int { LastHourEnd(r.now, r.cfg.exportDelay) }
  function From(r: RunInput): int { UpTo(r) - 1 - (r.cfg.catchUpHours - 1) }

  function Windows(r: RunInput, st: Store): seq<Window> {
    StreamWindows(st, r.cfg, r.discovered, r.cfg.streams, From(r), UpTo(r))
  }

  /** The windows of a run, spelled out: configured streams; the platform's one tenant for the platform
      stream, and for others the configured tenants, or the discovered ones if none are configured; the
      last `catchUpHours` hours that are eligible; and no manifest yet. */
  lemma RunTakesOn(r: RunInput, st: Store, w: Window)
    ensures w in Windows(r, st) <==>
      w.stream in r.cfg.streams && !Stored(st, w) &&
      (if w.stream == "platform-audit-log" then w.tenant == "PLATFORM"
       else if r.cfg.tenants == [] then w.tenant in r.discovered
       else w.tenant in r.cfg.tenants) &&
      LastHourEnd(r.now, r.cfg.exportDelay) - r.cfg.catchUpHours <= w.hour < LastHourEnd(r.now, r.cfg.exportDelay)
  {
    StreamWindowsMember(st, r.cfg, r.discovered, r.cfg.streams, From(r), UpTo(r), w);
  }

  /** Where the export loop stands: the store, whether the run has ended, and whether an error was
      recorded. */
  datatype Step = Step(st: Store, stop: bool, failed: bool)

  /** One turn of the export loop: errors are recorded and passed over; a source outage, a crash or
      a cancelled context ends the run. */
  ghost function Turn(p: Site, r: RunInput, ws: seq<Window>, st: Store, i: nat): Step {
    if i >= |ws| || r.cancelled(i) then Step(st, true, false)
    else
      var o := Attempt(p, r.cfg, st, ws[i], r.envs(i)).1;
      Step(Tried(p, r.cfg, st, ws[i], r.envs(i)), o.SourceOutage? || o.Crashed?, o.Failed?)
  }

  ghost function Turns(p: Site, r: RunInput, ws: seq<Window>): (Store, nat) -> Step {
    (s: Store, i: nat) => Turn(p, r, ws, s, i)
  }

  /** Turn number `i` of a loop that may have ended before. */
  ghost function Advance(turn: (Store, nat) -> Step, b: Step, i: nat): Step {
    if b.stop then b
    else
      var next := turn(b.st, i);
      next.(failed := b.failed || next.failed)
  }

  /** The first `n` turns. */
  ghost function Loop(turn: (Store, nat) -> Step, st: Store, n: nat): Step {
    if n == 0 then Step(st, false, false) else Advance(turn, Loop(turn, st, n - 1), n - 1)
  }

  ghost function ExportAll(p: Site, r: RunInput, st: Store, ws: seq<Window>): Step {
    Loop(Turns(p, r, ws), st, |ws|)
  }

  /** What every turn carries on holds at the end of the loop. */
  lemma {:induction false} LoopKeeps(turn: (Store, nat) -> Step, inv: (Step, nat) -> bool, st: Store, n: nat)
    requires inv(Step(st, false, false), 0)
    requires forall b: Step, j: nat :: j < n && inv(b, j) ==> inv(Advance(turn, b, j), j + 1)
    ensures inv(Loop(turn, st, n), n)
  {
    if n > 0 {
      LoopKeeps(turn, inv, st, n - 1);
      assert inv(Loop(turn, st, n - 1), n - 1);
    }
  }

  lemma {:induction false} LoopAgrees(turn: (Store, nat) -> Step, turn': (Store, nat) -> Step, st: Store, n: nat)
    requires forall s: Store, j: nat :: j < n ==> turn(s, j) == turn'(s, j)
    ensures Loop(turn, st, n) == Loop(turn', st, n)
  {
    if n > 0 { LoopAgrees(turn, turn', st, n - 1); }
  }

  lemma {:induction false} LoopStopped(turn: (Store, nat) -> Step, st: Store, i: nat, n: nat)
    requires i <= n && Loop(turn, st, i).stop
    ensures Loop(turn, st, n) == Loop(turn, st, i)
  {
    if i < n { LoopStopped(turn, st, i, n - 1); }
  }

  /** One more turn, of a loop whose earlier turns are those of another. */
  lemma LoopStep(turn: (Store, nat) -> Step, turn': (Store, nat) -> Step, st0: Store, i: nat, n: nat, b: Step, next: Step)
    requires forall s: Store, j: nat :: j < i ==> turn(s, j) == turn'(s, j)
    requires i < n && Loop(turn, st0, i) == b && !b.stop && turn'(b.st, i) == next
    ensures Loop(turn', st0, i + 1) == next.(failed := b.failed || next.failed)
    ensures next.stop ==> Loop(turn', st0, n) == next.(failed := b.failed || next.failed)
  {
    LoopAgrees(turn, turn', st0, i);
    if next.stop { LoopStopped(turn', st0, i + 1, n); }
  }

  predicate Starts(r: RunInput) { (r.cfg.compliance ==> r.bucketLocked) && !r.collectFails }

  ghost function RunOnce(p: Site, r: RunInput, st: Store): Store {
    if !Starts(r) then st else ExportAll(p, r, st, Windows(r, st)).st
  }

  /** The run ends without reporting an error. */
  ghost predicate Reports(p: Site, r: RunInput, st: Store) {
    Starts(r) && var end := ExportAll(p, r, st, Windows(r, st)); !end.stop && !end.failed
  }

  /** A run in compliance mode on a bucket that is not locked, or one that cannot collect its windows,
      writes nothing and reports an error. */
  lemma RefusedRun(p: Site, r: RunInput, st: Store)
    requires (r.cfg.compliance && !r.bucketLocked) || r.collectFails
    ensures RunOnce(p, r, st) == st && !Reports(p, r, st)
  {}

  /** Any other run exports its windows. */
  lemma StartedRun(p: Site, r: RunInput, st: Store)
    requires !(r.cfg.compliance && !r.bucketLocked) && !r.collectFails
    ensures var end := ExportAll(p, r, st, Windows(r, st));
      RunOnce(p, r, st) == end.st && (Reports(p, r, st) <==> !end.stop && !end.failed)
  {}

  /** A window the loop comes to is attempted. An outage or a crash there ends the run; a failure is
      remembered and the loop goes on; after either the run reports an error. */
  lemma WindowHandled(p: Site, r: RunInput, ws: seq<Window>, st: Store, i: nat)
    requires i < |ws| && !Loop(Turns(p, r, ws), st, i).stop && !r.cancelled(i)
    ensures var b := Loop(Turns(p, r, ws), st, i);
      var o := Attempt(p, r.cfg, b.st, ws[i], r.envs(i)).1;
      var after := Tried(p, r.cfg, b.st, ws[i], r.envs(i));
      (if o.SourceOutage? || o.Crashed?
       then ExportAll(p, r, st, ws).st == after && ExportAll(p, r, st, ws).stop
       else Loop(Turns(p, r, ws), st, i + 1) == Step(after, false, b.failed || o.Failed?))
  {
    var turn, b := Turns(p, r, ws), Loop(Turns(p, r, ws), st, i);
    LoopStep(turn, turn, st, i, |ws|, b, turn(b.st, i));
  }

  /** A cancelled context ends the run before the window it finds next. */
  lemma WindowCancelled(p: Site, r: RunInput, ws: seq<Window>, st: Store, i: nat)
    requires i < |ws| && !Loop(Turns(p, r, ws), st, i).stop && r.cancelled(i)
    ensures ExportAll(p, r, st, ws).st == Loop(Turns(p, r, ws), st, i).st && ExportAll(p, r, st, ws).stop
  {
    var turn, b := Turns(p, r, ws), Loop(Turns(p, r, ws), st, i);
    LoopStep(turn, turn, st, i, |ws|, b, Step(b.st, true, false));
  }

  /** Once a window has failed the run reports an error. */
  lemma {:induction false} FailureStays(turn: (Store, nat) -> Step, st: Store, i: nat, n: nat)
    requires i <= n && Loop(turn, st, i).failed
    ensures Loop(turn, st, n).failed
  {
    if i < n { FailureStays(turn, st, i, n - 1); }
  }

  /** Any number of runs, one after the other. */
  ghost function RunAll(p: Site, runs: seq<RunInput>, st: Store): Store {
    if runs == [] then st
    else RunOnce(p, runs[|runs| - 1], RunAll(p, runs[..|runs| - 1], st))
  }

  // ----- what every sequence of runs keeps -----

  ghost predicate HonestRun(p: Site, r: RunInput) { forall i :: Honest(p, r.envs(i)) }

  ghost predicate HonestRuns(p: Site, runs: seq<RunInput>) {
    forall i :: 0 <= i < |runs| ==> HonestRun(p, runs[i])
  }

  /** What every attempt keeps, whatever its window and the world's answers, every run keeps. */
  lemma RunKeeps(p: Site, r: RunInput, st: Store, inv: Store -> bool)
    requires inv(st) && HonestRun(p, r)
    requires forall s, w, env :: inv(s) && Honest(p, env) ==> inv(Tried(p, r.cfg, s, w, env))
    ensures inv(RunOnce(p, r, st))
  {
    var ws := Windows(r, st);
    var turn := Turns(p, r, ws);
    var holds := (b: Step, i: nat) => inv(b.st);
    forall b: Step, j: nat | j < |ws| && holds(b, j) ensures holds(Advance(turn, b, j), j + 1) {
      if !b.stop && !r.cancelled(j) { assert Honest(p, r.envs(j)) && inv(Tried(p, r.cfg, b.st, ws[j], r.envs(j))); }
    }
    LoopKeeps(turn, holds, st, |ws|);
  }

  lemma {:induction false} RunsKeep(p: Site, runs: seq<RunInput>, st: Store, inv: Store -> bool)
    requires inv(st) && HonestRuns(p, runs)
    requires forall i, s, w, env :: 0 <= i < |runs| && inv(s) && Honest(p, env) ==> inv(Tried(p, runs[i].cfg, s, w, env))
    ensures inv(RunAll(p, runs, st))
  {
    if runs != [] {
      var n := |runs| - 1;
      assert forall i :: 0 <= i < n ==> runs[..n][i] == runs[i];
      RunsKeep(p, runs[..n], st, inv);
      RunKeeps(p, runs[n], RunAll(p, runs[..n], st), inv);
    }
  }

  /** Over every sequence of runs, with failures, ambiguous puts and crashes anywhere: a stored
      manifest comes with its signature and with the data it describes; every named predecessor is
      the manifest stored one hour earlier; no manifest is ever changed or written twice; and when
      every run is in compliance mode no object at all is written twice. */
  lemma RunsKeepInv(p: Site, runs: seq<RunInput>, st: Store, worm: bool)
    requires Inv(p, st, worm) && HonestRuns(p, runs)
    requires worm ==> forall i :: 0 <= i < |runs| ==> runs[i].cfg.compliance
    ensures Inv(p, RunAll(p, runs, st), worm) && Keeps(st, RunAll(p, runs, st))
  {
    var inv := s => Inv(p, s, worm) && Keeps(st, s);
    forall i, s, w, env | 0 <= i < |runs| && inv(s) && Honest(p, env) ensures inv(Tried(p, runs[i].cfg, s, w, env)) {
      AttemptKeepsInv(p, runs[i].cfg, s, w, env, worm);
    }
    RunsKeep(p, runs, st, inv);
  }

  lemma RunKeepsInv(p: Site, r: RunInput, st: Store, worm: bool)
    requires Inv(p, st, worm) && HonestRun(p, r) && (worm ==> r.cfg.compliance)
    ensures Inv(p, RunOnce(p, r, st), worm) && Keeps(st, RunOnce(p, r, st))
  {
    RunsKeepInv(p, [r], st, worm);
    assert [r][..0] == [] && RunAll(p, [], st) == st;
    assert RunAll(p, [r], st) == RunOnce(p, r, st);
  }

  /** The empty store is a sound start. */
  lemma EmptyInv(p: Site, worm: bool)
    ensures Inv(p, EMPTY, worm)
  {}

  /** Write-once, read off the record of writes: with compliance mode on in every run, each key is
      written at most once. */
  lemma WriteOnce(p: Site, runs: seq<RunInput>, k: Key)
    requires HonestRuns(p, runs) && forall i :: 0 <= i < |runs| ==> runs[i].cfg.compliance
    ensures multiset(RunAll(p, runs, EMPTY).log)[k] <= 1
  {
    EmptyInv(p, true);
    RunsKeepInv(p, runs, EMPTY, true);
    AtMostOnce(RunAll(p, runs, EMPTY).log, k);
  }

  lemma {:induction false} AtMostOnce(log: seq<Key>, k: Key)
    requires forall i, j :: 0 <= i < j < |log| ==> log[i] != log[j]
    ensures multiset(log)[k] <= 1
  {
    if log != [] {
      var init, last := log[..|log| - 1], log[|log| - 1];
      AtMostOnce(init, k);
      assert log == init + [last];
    }
  }

  // ----- what a run's success means -----

  ghost predicate StoredUpTo(st: Store, ws: seq<Window>, n: nat) {
    n <= |ws| && forall j :: 0 <= j < n ==> Stored(st, ws[j])
  }

  lemma TurnStores(p: Site, r: RunInput, ws: seq<Window>, st: Store, i: nat)
    requires i < |ws| && !Turn(p, r, ws, st, i).stop && !Turn(p, r, ws, st, i).failed
    ensures Stored(Turn(p, r, ws, st, i).st, ws[i]) && Keeps(st, Turn(p, r, ws, st, i).st)
  {
    AttemptChecked(p, r.cfg, st, ws[i], r.envs(i));
    ApplyKeeps(p, r.cfg, st, ws[i], Attempt(p, r.cfg, st, ws[i], r.envs(i)).0);
  }

  lemma AllStored(p: Site, r: RunInput, ws: seq<Window>, st: Store)
    requires !ExportAll(p, r, st, ws).stop && !ExportAll(p, r, st, ws).failed
    ensures StoredUpTo(ExportAll(p, r, st, ws).st, ws, |ws|)
  {
    var turn := Turns(p, r, ws);
    var inv := (b: Step, i: nat) => b.stop || b.failed || StoredUpTo(b.st, ws, i);
    forall b: Step, j: nat | j < |ws| && inv(b, j) ensures inv(Advance(turn, b, j), j + 1) {
      var next := Advance(turn, b, j);
      if !next.stop && !next.failed { TurnStores(p, r, ws, b.st, j); }
    }
    LoopKeeps(turn, inv, st, |ws|);
  }

  /** A run that reports success leaves no hour of its catch-up span, for none of its streams and
      tenants, without a manifest. */
  lemma SuccessMeansStored(p: Site, r: RunInput, st: Store, w: Window)
    requires Inv(p, st, false) && HonestRun(p, r) && Reports(p, r, st)
    requires w.stream in r.cfg.streams && w.tenant in TenantsFor(r.cfg, r.discovered, w.stream)
    requires From(r) <= w.hour < UpTo(r)
    ensures Stored(RunOnce(p, r, st), w)
  {
    StreamWindowsMember(st, r.cfg, r.discovered, r.cfg.streams, From(r), UpTo(r), w);
    AllStored(p, r, Windows(r, st), st);
    RunKeepsInv(p, r, st, false);
  }

  // ----- failure-free runs: the chain is complete -----

  predicate CleanEnv(env: Env) {
    env.crash.NoCrash? && !env.manifestCheckFails && env.query.Body? && env.query.streamed.Some? &&
    !env.dataCheckFails && !env.previousReadFails && !env.signFails &&
    env.signaturePut.PutOk? && env.manifestPut.PutOk?
  }

  ghost predicate CleanRun(p: Site, r: RunInput) {
    Starts(r) && HonestRun(p, r) && forall i :: CleanEnv(r.envs(i)) && !r.cancelled(i)
  }

  /** The manifest of `w` carries the hash of its predecessor, which is stored. */
  ghost predicate LinksBack(p: Site, st: Store, w: Window)
    requires Stored(st, w)
  {
    ManifestKey(Previous(w)) in st.objects && p.read(st.objects[ManifestKey(w)]).Some? &&
    p.read(st.objects[ManifestKey(w)]).value.previous == p.sha256(st.objects[ManifestKey(Previous(w))])
  }

  /** Every stored manifest from hour `a` on links back to the one before it, down to hour `a`. */
  ghost predicate Linked(p: Site, st: Store, a: int) {
    forall w :: Stored(st, w) ==> a <= w.hour && (a < w.hour ==> LinksBack(p, st, w))
  }

  /** No data object lacks its manifest. */
  ghost predicate NothingPartial(st: Store) {
    forall w :: DataKey(w) in st.objects ==> Stored(st, w)
  }

  ghost predicate Good(p: Site, st: Store, a: int) {
    Committed(p, st) && Linked(p, st, a) && NothingPartial(st)
  }

  lemma StoredIsValid(p: Site, st: Store, w: Window)
    requires Committed(p, st) && Stored(st, w)
    ensures p.valid(st.objects[ManifestKey(w)])
  {
    assert Described(p, st.objects, w);
  }

  lemma CleanAttempt(p: Site, cfg: Config, st: Store, w: Window, env: Env)
    requires NothingPartial(st) && CleanEnv(env)
    ensures var (e, o) := Attempt(p, cfg, st, w, env);
      if Stored(st, w) then e.Unchanged? && o.Skipped? else e.Complete? && !e.blind && o.Exported?
  {}

  lemma CleanStep(p: Site, cfg: Config, st: Store, w: Window, env: Env, a: int)
    requires Good(p, st, a) && CleanEnv(env) && Honest(p, env)
    requires a <= w.hour && (a < w.hour ==> Stored(st, Previous(w)))
    ensures var st' := Tried(p, cfg, st, w, env);
      Good(p, st', a) && forall v :: Stored(st', v) <==> Stored(st, v) || v == w
  {
    var (e, o) := Attempt(p, cfg, st, w, env);
    var st' := Apply(p, st, w, e);
    CleanAttempt(p, cfg, st, w, env);
    AttemptGuarded(p, cfg, st, w, env);
    ApplyKeeps(p, cfg, st, w, e);
    ApplyCommitted(p, cfg, st, w, e);
    if !Stored(st, w) {
      NewLinks(p, cfg, st, w, env, a);
      forall v | DataKey(v) in st'.objects ensures Stored(st', v) {
        if v != w { ApplyFrame(p, st, w, e, DataKey(v)); }
      }
    }
  }

  lemma NewLinks(p: Site, cfg: Config, st: Store, w: Window, env: Env, a: int)
    requires Good(p, st, a) && CleanEnv(env) && Honest(p, env) && !Stored(st, w)
    requires a <= w.hour && (a < w.hour ==> Stored(st, Previous(w)))
    ensures Linked(p, Tried(p, cfg, st, w, env), a)
  {
    var e := Attempt(p, cfg, st, w, env).0;
    var st' := Apply(p, st, w, e);
    CleanAttempt(p, cfg, st, w, env);
    AttemptGuarded(p, cfg, st, w, env);
    ApplyKeeps(p, cfg, st, w, e);
    forall v | Stored(st', v) ensures a <= v.hour && (a < v.hour ==> LinksBack(p, st', v)) {
      if v == w {
        if a < w.hour {
          StoredIsValid(p, st, Previous(w));
          assert e.m.previous == PreviousHash(p, st, w, false);
        }
      } else {
        assert Stored(st, v);
        if a < v.hour { assert LinksBack(p, st, v); }
      }
    }
  }

  /** The store after the first `i` windows of a clean run. */
  ghost predicate Done(p: Site, st0: Store, st: Store, ws: seq<Window>, i: nat, a: int) {
    i <= |ws| && Good(p, st, a) && forall v :: Stored(st, v) <==> Stored(st0, v) || v in ws[..i]
  }

  lemma CleanTurnIs(p: Site, r: RunInput, ws: seq<Window>, st: Store, i: nat)
    requires i < |ws| && !r.cancelled(i) && CleanEnv(r.envs(i)) && NothingPartial(st)
    ensures Turn(p, r, ws, st, i) == Step(Tried(p, r.cfg, st, ws[i], r.envs(i)), false, false)
  {
    CleanAttempt(p, r.cfg, st, ws[i], r.envs(i));
  }

  lemma DoneNext(p: Site, st0: Store, st: Store, st': Store, ws: seq<Window>, i: nat, a: int)
    requires i < |ws| && Done(p, st0, st, ws, i, a) && Good(p, st', a)
    requires forall v :: Stored(st', v) <==> Stored(st, v) || v == ws[i]
    ensures Done(p, st0, st', ws, i + 1, a)
  {
    PrefixMembers(ws, i);
  }

  lemma CleanTurn(p: Site, r: RunInput, ws: seq<Window>, st0: Store, st: Store, i: nat, a: int)
    requires i < |ws| && CleanRun(p, r) && Chronological(st0, ws, a) && Done(p, st0, st, ws, i, a)
    ensures var next := Turn(p, r, ws, st, i);
      !next.stop && !next.failed && Done(p, st0, next.st, ws, i + 1, a)
  {
    assert CleanEnv(r.envs(i)) && Honest(p, r.envs(i));
    CleanStep(p, r.cfg, st, ws[i], r.envs(i), a);
    DoneNext(p, st0, st, Tried(p, r.cfg, st, ws[i], r.envs(i)), ws, i, a);
    CleanTurnIs(p, r, ws, st, i);
  }

  lemma PrefixMembers(ws: seq<Window>, i: nat)
    requires i < |ws|
    ensures forall v :: v in ws[..i + 1] <==> v == ws[i] || v in ws[..i]
  {
    assert ws[..i + 1] == ws[..i] + [ws[i]];
  }

  lemma CleanExport(p: Site, r: RunInput, st: Store, ws: seq<Window>, a: int)
    requires CleanRun(p, r) && Good(p, st, a) && Chronological(st, ws, a)
    ensures var end := ExportAll(p, r, st, ws);
      !end.stop && !end.failed && Done(p, st, end.st, ws, |ws|, a)
  {
    var turn := Turns(p, r, ws);
    var inv := (b: Step, i: nat) => !b.stop && !b.failed && Done(p, st, b.st, ws, i, a);
    forall b: Step, j: nat | j < |ws| && inv(b, j) ensures inv(Advance(turn, b, j), j + 1) {
      CleanTurn(p, r, ws, st, b.st, j, a);
    }
    LoopKeeps(turn, inv, st, |ws|);
  }

  // ----- the windows of a run are in order -----

  /** Each window of the list comes after the one an hour before it. */
  ghost predicate Chronological(st: Store, ws: seq<Window>, from: int) {
    forall j :: 0 <= j < |ws| ==>
      from <= ws[j].hour && (from < ws[j].hour ==> Stored(st, Previous(ws[j])) || Previous(ws[j]) in ws[..j])
  }

  lemma ChronologicalJoin(st: Store, x: seq<Window>, y: seq<Window>, from: int)
    requires Chronological(st, x, from) && Chronological(st, y, from)
    ensures Chronological(st, x + y, from)
  {
    var z := x + y;
    forall j | 0 <= j < |z|
      ensures from <= z[j].hour && (from < z[j].hour ==> Stored(st, Previous(z[j])) || Previous(z[j]) in z[..j])
    {
      if j < |x| {
        assert z[..j] == x[..j];
      } else {
        assert z[..j] == x + y[..j - |x|];
        assert z[j] == y[j - |x|];
      }
    }
  }

  lemma {:induction false} HoursChronological(st: Store, s: string, t: string, from: int, upTo: int)
    ensures Chronological(st, HourWindows(st, s, t, from, upTo), from)
    decreases upTo - from
  {
    if from < upTo {
      var init, w := HourWindows(st, s, t, from, upTo - 1), Window(s, t, upTo - 1);
      HoursChronological(st, s, t, from, upTo - 1);
      HourWindowsMember(st, s, t, from, upTo - 1, Previous(w));
      var ws := HourWindows(st, s, t, from, upTo);
      forall j | 0 <= j < |ws|
        ensures from <= ws[j].hour && (from < ws[j].hour ==> Stored(st, Previous(ws[j])) || Previous(ws[j]) in ws[..j])
      {
        if j < |init| {
          assert ws[j] == init[j] && ws[..j] == init[..j];
        } else {
          assert ws[j] == w && ws[..j] == init;
        }
      }
    }
  }

  lemma {:induction false} TenantsChronological(st: Store, s: string, ts: seq<string>, from: int, upTo: int)
    ensures Chronological(st, TenantWindows(st, s, ts, from, upTo), from)
  {
    if ts != [] {
      TenantsChronological(st, s, ts[..|ts| - 1], from, upTo);
      HoursChronological(st, s, ts[|ts| - 1], from, upTo);
      ChronologicalJoin(st, TenantWindows(st, s, ts[..|ts| - 1], from, upTo),
                        HourWindows(st, s, ts[|ts| - 1], from, upTo), from);
    }
  }

  lemma {:induction false} StreamsChronological(st: Store, cfg: Config, d: seq<string>, ss: seq<string>, from: int, upTo: int)
    ensures Chronological(st, StreamWindows(st, cfg, d, ss, from, upTo), from)
  {
    if ss != [] {
      var s := ss[|ss| - 1];
      StreamsChronological(st, cfg, d, ss[..|ss| - 1], from, upTo);
      TenantsChronological(st, s, TenantsFor(cfg, d, s), from, upTo);
      ChronologicalJoin(st, StreamWindows(st, cfg, d, ss[..|ss| - 1], from, upTo),
                        TenantWindows(st, s, TenantsFor(cfg, d, s), from, upTo), from);
    }
  }

  // ----- the complete chain -----

  /** The tenant list of every stream is fixed by the configuration. */
  predicate FixedTenants(cfg: Config) {
    |cfg.tenants| > 0 || forall i :: 0 <= i < |cfg.streams| ==> cfg.streams[i] == PLATFORM_STREAM
  }

  predicate Exports(cfg: Config, stream: string, tenant: string) {
    stream in cfg.streams && tenant in TenantsFor(cfg, [], stream)
  }

  /** For every configured (stream, tenant) the exported hours are exactly [a, b), and each of their
      manifests but the oldest carries the hash of the one before it. */
  ghost predicate CompleteFrom(p: Site, cfg: Config, st: Store, a: int, b: int) {
    Good(p, st, a) && Holds(cfg, st, a, b)
  }

  lemma EmptyComplete(p: Site, cfg: Config, a: int)
    ensures CompleteFrom(p, cfg, EMPTY, a, a)
  {}

  lemma FixedWindows(r: RunInput, st: Store, w: Window)
    requires FixedTenants(r.cfg)
    ensures w in Windows(r, st) <==>
            Exports(r.cfg, w.stream, w.tenant) && From(r) <= w.hour < UpTo(r) && !Stored(st, w)
  {
    StreamWindowsMember(st, r.cfg, r.discovered, r.cfg.streams, From(r), UpTo(r), w);
    assert w.stream in r.cfg.streams ==> TenantsFor(r.cfg, r.discovered, w.stream) == TenantsFor(r.cfg, [], w.stream);
  }

  ghost predicate Holds(cfg: Config, st: Store, a: int, b: int) {
    forall w :: Stored(st, w) <==> Exports(cfg, w.stream, w.tenant) && a <= w.hour < b
  }

  lemma WindowsInOrder(r: RunInput, st: Store, a: int, b: int)
    requires FixedTenants(r.cfg) && a <= From(r) <= b && Holds(r.cfg, st, a, b)
    ensures Chronological(st, Windows(r, st), a)
  {
    var ws := Windows(r, st);
    StreamsChronological(st, r.cfg, r.discovered, r.cfg.streams, From(r), UpTo(r));
    forall j | 0 <= j < |ws|
      ensures a <= ws[j].hour && (a < ws[j].hour ==> Stored(st, Previous(ws[j])) || Previous(ws[j]) in ws[..j])
    {
      FixedWindows(r, st, ws[j]);
      if a < ws[j].hour == From(r) { assert a <= Previous(ws[j]).hour < b; }
    }
  }

  /** A clean run carries [a, b) on to its own last hour, if it reaches back to b. */
  lemma CleanRunExtends(p: Site, r: RunInput, st: Store, a: int, b: int)
    requires CleanRun(p, r) && FixedTenants(r.cfg) && a <= From(r) <= b <= UpTo(r)
    requires CompleteFrom(p, r.cfg, st, a, b)
    ensures CompleteFrom(p, r.cfg, RunOnce(p, r, st), a, UpTo(r)) && Reports(p, r, st)
  {
    var ws := Windows(r, st);
    WindowsInOrder(r, st, a, b);
    CleanExport(p, r, st, ws, a);
    assert ws[..|ws|] == ws;
    forall w ensures Stored(RunOnce(p, r, st), w) <==> Exports(r.cfg, w.stream, w.tenant) && a <= w.hour < UpTo(r) {
      FixedWindows(r, st, w);
    }
  }

  /** Clocks do not go back, and no gap between runs is longer than the catch-up span. */
  ghost predicate Timely(p: Site, cfg: Config, runs: seq<RunInput>) {
    (forall i :: 0 <= i < |runs| ==> CleanRun(p, runs[i]) && runs[i].cfg == cfg) &&
    forall i :: 0 <= i < |runs| - 1 ==> runs[i].now <= runs[i + 1].now <= runs[i].now + cfg.catchUpHours * HOUR
  }

  /** From an empty store, failure-free timely runs leave for every (stream, tenant) one gap-free
      interval of hours that ends at the latest eligible hour, fully linked. */
  lemma {:induction false} CompleteChain(p: Site, cfg: Config, runs: seq<RunInput>)
    requires runs != [] && Timely(p, cfg, runs)
    requires FixedTenants(cfg) && 0 <= cfg.exportDelay <= HOUR && cfg.catchUpHours >= 1
    ensures CompleteFrom(p, cfg, RunAll(p, runs, EMPTY), From(runs[0]), UpTo(runs[|runs| - 1]))
    ensures From(runs[0]) <= UpTo(runs[|runs| - 1]) - cfg.catchUpHours
  {
    var n := |runs| - 1;
    if n == 0 {
      FirstRun(p, runs[0]);
      assert runs[..0] == [];
    } else {
      var init := runs[..n];
      assert init[0] == runs[0] && init[n - 1] == runs[n - 1];
      TimelyBefore(p, cfg, runs);
      CompleteChain(p, cfg, init);
      NextRun(p, runs[n - 1], runs[n], RunAll(p, init, EMPTY), From(runs[0]));
    }
  }

  /** The first run covers its own span. */
  lemma FirstRun(p: Site, r: RunInput)
    requires CleanRun(p, r) && FixedTenants(r.cfg) && r.cfg.catchUpHours >= 1
    ensures CompleteFrom(p, r.cfg, RunOnce(p, r, EMPTY), From(r), UpTo(r))
  {
    EmptyComplete(p, r.cfg, From(r));
    CleanRunExtends(p, r, EMPTY, From(r), From(r));
  }

  /** A timely run carries the interval on from where the run before it ended. */
  lemma NextRun(p: Site, r: RunInput, r': RunInput, st: Store, a: int)
    requires CleanRun(p, r') && r'.cfg == r.cfg && FixedTenants(r.cfg) && 0 <= r.cfg.exportDelay <= HOUR
    requires r.now <= r'.now <= r.now + r.cfg.catchUpHours * HOUR
    requires CompleteFrom(p, r.cfg, st, a, UpTo(r)) && a <= UpTo(r) - r.cfg.catchUpHours
    ensures CompleteFrom(p, r.cfg, RunOnce(p, r', st), a, UpTo(r')) && a <= UpTo(r') - r.cfg.catchUpHours
  {
    RunsOverlap(r, r');
    CleanRunExtends(p, r', st, a, UpTo(r));
  }

  lemma TimelyBefore(p: Site, cfg: Config, runs: seq<RunInput>)
    requires |runs| >= 2 && Timely(p, cfg, runs)
    ensures Timely(p, cfg, runs[..|runs| - 1])
    ensures runs[|runs| - 2].now <= runs[|runs| - 1].now <= runs[|runs| - 2].now + cfg.catchUpHours * HOUR
  {
    var init := runs[..|runs| - 1];
    assert runs[|runs| - 2 + 1] == runs[|runs| - 1];
    forall i | 0 <= i < |init| - 1 ensures init[i].now <= init[i + 1].now <= init[i].now + cfg.catchUpHours * HOUR {
      assert init[i] == runs[i] && init[i + 1] == runs[i + 1];
    }
  }

  /** A timely run starts no later than where the run before it ended. */
  lemma RunsOverlap(r: RunInput, r': RunInput)
    requires r'.cfg == r.cfg && 0 <= r.cfg.exportDelay <= HOUR
    requires r.now <= r'.now <= r.now + r.cfg.catchUpHours * HOUR
    ensures From(r) <= From(r') <= UpTo(r) <= UpTo(r')
  {
    LastHourSteps(r.now, r'.now, r.cfg.exportDelay, r.cfg.catchUpHours);
  }

  /** Every window a run takes on ended at least the export delay before the run's clock. */
  lemma WindowsHaveEnded(r: RunInput, st: Store, w: Window)
    requires 0 <= r.cfg.exportDelay <= HOUR && w in Windows(r, st)
    ensures (w.hour + 1) * HOUR + r.cfg.exportDelay <= r.now
  {
    StreamWindowsMember(st, r.cfg, r.discovered, r.cfg.streams, From(r), UpTo(r), w);
    LatestEligible(r.now, r.cfg.exportDelay);
    assert (w.hour + 1) * HOUR <= UpTo(r) * HOUR;
  }

  // ----- the chain binds the past -----

  ghost predicate Collision(p: Site) { exists x, y :: x != y && p.sha256(x) == p.sha256(y) }

  /** Two stores that agree on one manifest agree on all manifests it is linked to, and on the data
      they describe, unless the hash collides. */
  lemma ChainBinds(p: Site, st: Store, st': Store, w: Window, n: nat)
    requires Committed(p, st) && Committed(p, st') && Stored(st, w) && Stored(st', w)
    requires st.objects[ManifestKey(w)] == st'.objects[ManifestKey(w)]
    requires forall i :: 0 <= i < n ==> LinkedAt(p, st, w, i) && LinkedAt(p, st', w, i)
    ensures Collision(p) || forall i :: 0 <= i <= n ==> SameAt(st, st', w, i)
  {
    if !Collision(p) {
      forall i | 0 <= i <= n ensures SameAt(st, st', w, i) { ChainAgrees(p, st, st', w, i); }
    }
  }

  lemma {:induction false} ChainAgrees(p: Site, st: Store, st': Store, w: Window, n: nat)
    requires Committed(p, st) && Committed(p, st') && Stored(st, w) && Stored(st', w) && !Collision(p)
    requires st.objects[ManifestKey(w)] == st'.objects[ManifestKey(w)]
    requires forall i :: 0 <= i < n ==> LinkedAt(p, st, w, i) && LinkedAt(p, st', w, i)
    ensures SameAt(st, st', w, n)
  {
    if n == 0 {
      SameData(p, st, st', w);
    } else {
      ChainAgrees(p, st, st', w, n - 1);
      var v := Back(w, n - 1);
      assert LinkedAt(p, st, w, n - 1) && LinkedAt(p, st', w, n - 1);
      assert Back(v, 0) == v && Previous(v) == Back(w, n) == Back(Previous(v), 0);
      BindsPrevious(p, st, st', v);
    }
  }

  lemma BindsPrevious(p: Site, st: Store, st': Store, w: Window)
    requires Committed(p, st) && Committed(p, st') && SameAt(st, st', w, 0)
    requires LinkedAt(p, st, w, 0) && LinkedAt(p, st', w, 0)
    ensures Collision(p) || SameAt(st, st', Previous(w), 0)
  {
    assert Back(w, 0) == w;
    var x, y := st.objects[ManifestKey(Previous(w))], st'.objects[ManifestKey(Previous(w))];
    assert p.sha256(x) == p.sha256(y);
    if x == y { SameData(p, st, st', Previous(w)); }
  }

  function Back(w: Window, n: nat): Window { w.(hour := w.hour - n) }

  ghost predicate LinkedAt(p: Site, st: Store, w: Window, i: nat) {
    Stored(st, Back(w, i)) && LinksBack(p, st, Back(w, i))
  }

  /** Same manifest and same data, `i` hours before `w`. */
  ghost predicate SameAt(st: Store, st': Store, w: Window, i: nat) {
    var m, d := ManifestKey(Back(w, i)), DataKey(Back(w, i));
    m in st.objects && m in st'.objects && st.objects[m] == st'.objects[m] &&
    d in st.objects && d in st'.objects && st.objects[d] == st'.objects[d]
  }

  lemma SameData(p: Site, st: Store, st': Store, w: Window)
    requires Committed(p, st) && Committed(p, st') && Stored(st, w) && Stored(st', w)
    requires st.objects[ManifestKey(w)] == st'.objects[ManifestKey(w)]
    ensures Collision(p) || SameAt(st, st', w, 0)
  {
    assert Described(p, st.objects, w) && Described(p, st'.objects, w);
    var x, y := st.objects[DataKey(w)], st'.objects[DataKey(w)];
    assert p.sha256(x) == p.sha256(y);
    assert Back(w, 0) == w;
  }
}
