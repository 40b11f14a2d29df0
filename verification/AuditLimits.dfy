/** Where the export protocol falls short of what one would wish, with the exact condition: which
    manifests are linked when runs can fail, and when an object is written twice. */
module AuditLimits {
  import opened Text
  import opened AuditEvents
  import opened ExportSite
  import opened ExportProtocol
  import opened AuditRuns

  // ----- links -----

  ghost predicate NonEmptyHashes(p: Site) { forall x :: p.sha256(x) != "" }

  ghost predicate WrittenBefore(log: seq<Key>, k: Key, l: Key) {
    exists i, j :: 0 <= i < j < |log| && log[i] == k && log[j] == l
  }

  /** A manifest carries the hash of its predecessor exactly when the predecessor was written before
      it and could be read at that moment. */
  ghost predicate LinksExact(p: Site, st: Store) {
    forall w :: Stored(st, w) ==> (LinksBack(p, st, w) <==> Expected(st, w))
  }

  ghost predicate Expected(st: Store, w: Window) {
    WrittenBefore(st.log, ManifestKey(Previous(w)), ManifestKey(w)) && w !in st.blind
  }

  ghost predicate BlindStored(st: Store) { forall w :: w in st.blind ==> Stored(st, w) }

  /** The keys an effect writes, in order. */
  function Written(w: Window, e: Effect): seq<Key> {
    match e
    case Unchanged => []
    case PartialData(_) => [DataKey(w)]
    case DataOnly(_) => [DataKey(w)]
    case DataAndSignature(_, _) => [DataKey(w), SignatureKey(w)]
    case Complete(_, _, _) => [DataKey(w), SignatureKey(w), ManifestKey(w)]
  }

  lemma ApplyLog(p: Site, st: Store, w: Window, e: Effect)
    ensures Apply(p, st, w, e).log == st.log + Written(w, e)
    ensures Apply(p, st, w, e).blind == st.blind + if e.Complete? && e.blind then {w} else {}
  {}

  lemma BeforeInPrefix(log: seq<Key>, more: seq<Key>, k: Key, l: Key)
    requires l !in more
    ensures WrittenBefore(log + more, k, l) <==> WrittenBefore(log, k, l)
  {
    var all := log + more;
    assert forall j :: |log| <= j < |all| ==> all[j] in more;
    if i, j :| 0 <= i < j < |all| && all[i] == k && all[j] == l {
      assert log[i] == k && log[j] == l;
    }
    if i, j :| 0 <= i < j < |log| && log[i] == k && log[j] == l { assert all[i] == k && all[j] == l; }
  }

  lemma BeforeLast(log: seq<Key>, k: Key, l: Key)
    requires l !in log
    ensures WrittenBefore(log + [l], k, l) <==> k in log
  {
    var all := log + [l];
    if i, j :| 0 <= i < j < |all| && all[i] == k && all[j] == l { assert log[i] == k; }
    if k in log {
      var i :| 0 <= i < |log| && log[i] == k;
      assert all[i] == k && all[|log|] == l;
    }
  }

  /** The link of a manifest that an attempt writes. */
  lemma LinkedExactlyWhen(p: Site, cfg: Config, st: Store, w: Window, env: Env)
    requires Committed(p, st) && Attempt(p, cfg, st, w, env).0.Complete?
    requires NonEmptyHashes(p)
    ensures var st' := Tried(p, cfg, st, w, env);
      Stored(st', w) && (LinksBack(p, st', w) <==> Stored(st, Previous(w)) && !env.previousReadFails)
  {
    var e := Attempt(p, cfg, st, w, env).0;
    WrittenLink(p, cfg, st, w, env);
    ApplyFrame(p, st, w, e, ManifestKey(Previous(w)));
    LinkCore(p, st, Apply(p, st, w, e), w, env.previousReadFails);
  }

  lemma WrittenLink(p: Site, cfg: Config, st: Store, w: Window, env: Env)
    requires Attempt(p, cfg, st, w, env).0.Complete?
    ensures Attempt(p, cfg, st, w, env).0.blind == env.previousReadFails
    ensures var st' := Tried(p, cfg, st, w, env);
      Stored(st', w) && p.read(st'.objects[ManifestKey(w)]).Some? &&
      p.read(st'.objects[ManifestKey(w)]).value.previous == PreviousHash(p, st, w, env.previousReadFails)
  {
    AttemptComplete(p, cfg, st, w, env);
  }

  lemma LinkCore(p: Site, st: Store, st': Store, w: Window, readFails: bool)
    requires Committed(p, st) && Stored(st', w) && p.read(st'.objects[ManifestKey(w)]).Some?
    requires p.read(st'.objects[ManifestKey(w)]).value.previous == PreviousHash(p, st, w, readFails)
    requires ManifestKey(Previous(w)) in st'.objects <==> ManifestKey(Previous(w)) in st.objects
    requires ManifestKey(Previous(w)) in st.objects ==>
      st'.objects[ManifestKey(Previous(w))] == st.objects[ManifestKey(Previous(w))]
    requires NonEmptyHashes(p)
    ensures LinksBack(p, st', w) <==> Stored(st, Previous(w)) && !readFails
  {
    if Stored(st, Previous(w)) { StoredIsValid(p, st, Previous(w)); }
  }

  /** The manifest that is new: its predecessor was stored exactly if it was written before. */
  lemma NewLinkExact(p: Site, cfg: Config, st: Store, w: Window, env: Env)
    requires Inv(p, st, false) && BlindStored(st) && NonEmptyHashes(p)
    requires Attempt(p, cfg, st, w, env).0.Complete?
    ensures var st' := Tried(p, cfg, st, w, env);
      Stored(st', w) && (LinksBack(p, st', w) <==> Expected(st', w))
  {
    var e := Attempt(p, cfg, st, w, env).0;
    AttemptChecked(p, cfg, st, w, env);
    LinkedExactlyWhen(p, cfg, st, w, env);
    WrittenLink(p, cfg, st, w, env);
    ApplyLog(p, st, w, e);
    var before := st.log + [DataKey(w), SignatureKey(w)];
    assert st.log + Written(w, e) == before + [ManifestKey(w)];
    BeforeLast(before, ManifestKey(Previous(w)), ManifestKey(w));
  }

  /** A manifest that is not new: a predecessor that comes now comes too late. */
  lemma OldLinkExact(p: Site, cfg: Config, st: Store, w: Window, env: Env, v: Window)
    requires Inv(p, st, false) && LinksExact(p, st) && NonEmptyHashes(p) && Stored(st, v)
    ensures var st' := Tried(p, cfg, st, w, env);
      Stored(st', v) && (LinksBack(p, st', v) <==> Expected(st', v))
  {
    var e := Attempt(p, cfg, st, w, env).0;
    var st' := Tried(p, cfg, st, w, env);
    AttemptChecked(p, cfg, st, w, env);
    ApplyKeeps(p, cfg, st, w, e);
    ApplyLog(p, st, w, e);
    BeforeInPrefix(st.log, Written(w, e), ManifestKey(Previous(v)), ManifestKey(v));
    assert Expected(st', v) <==> Expected(st, v);
    LinkUnchanged(p, st, st', v);
  }

  lemma LinkUnchanged(p: Site, st: Store, st': Store, v: Window)
    requires ChainSound(p, st) && Keeps(st, st') && Stored(st, v) && NonEmptyHashes(p)
    ensures Stored(st', v) && (LinksBack(p, st', v) <==> LinksBack(p, st, v))
  {
    assert LinkSound(p, st.objects, v);
    assert Stored(st, Previous(v)) ==> Stored(st', Previous(v));
  }

  ghost predicate Explained(p: Site, st: Store) {
    Inv(p, st, false) && LinksExact(p, st) && BlindStored(st)
  }

  lemma AttemptExplained(p: Site, cfg: Config, st: Store, w: Window, env: Env)
    requires Explained(p, st) && NonEmptyHashes(p) && Honest(p, env)
    ensures Explained(p, Tried(p, cfg, st, w, env))
  {
    var e, st' := Attempt(p, cfg, st, w, env).0, Tried(p, cfg, st, w, env);
    AttemptKeepsInv(p, cfg, st, w, env, false);
    AttemptChecked(p, cfg, st, w, env);
    ApplyKeeps(p, cfg, st, w, e);
    ApplyLog(p, st, w, e);
    forall v | Stored(st', v) ensures LinksBack(p, st', v) <==> Expected(st', v) {
      if Stored(st, v) { OldLinkExact(p, cfg, st, w, env, v); } else { NewLinkExact(p, cfg, st, w, env); }
    }
  }

  /** Over every sequence of runs from the empty store: a stored manifest carries the hash of its
      predecessor exactly when the predecessor's manifest was written before it and was read without
      error when it was written. */
  lemma LinksExplained(p: Site, runs: seq<RunInput>, w: Window)
    requires NonEmptyHashes(p) && Stored(RunAll(p, runs, EMPTY), w) && HonestRuns(p, runs)
    ensures var st := RunAll(p, runs, EMPTY);
      LinksBack(p, st, w) <==>
      WrittenBefore(st.log, ManifestKey(Previous(w)), ManifestKey(w)) && w !in st.blind
  {
    var inv := s => Explained(p, s);
    EmptyInv(p, false);
    forall i, s, v, env | 0 <= i < |runs| && inv(s) && Honest(p, env) ensures inv(Tried(p, runs[i].cfg, s, v, env)) {
      AttemptExplained(p, runs[i].cfg, s, v, env);
    }
    RunsKeep(p, runs, EMPTY, inv);
    assert Explained(p, RunAll(p, runs, EMPTY)) && (LinksBack(p, RunAll(p, runs, EMPTY), w) <==> Expected(RunAll(p, runs, EMPTY), w));
  }

  lemma HoleKept(p: Site, st: Store, st': Store, w: Window)
    requires NonEmptyHashes(p) && ChainSound(p, st) && Keeps(st, st') && Stored(st, w) && !Stored(st, Previous(w))
    ensures Stored(st', w) && !LinksBack(p, st', w)
  {
    LinkUnchanged(p, st, st', w);
  }

  /** A hole that is filled later stays open: a manifest written without its predecessor never links
      back, whatever runs follow. */
  lemma HoleStaysOpen(p: Site, runs: seq<RunInput>, more: seq<RunInput>, w: Window)
    requires NonEmptyHashes(p) && HonestRuns(p, runs) && HonestRuns(p, more)
    requires var st := RunAll(p, runs, EMPTY); Stored(st, w) && !Stored(st, Previous(w))
    ensures var st := RunAll(p, more, RunAll(p, runs, EMPTY)); Stored(st, w) && !LinksBack(p, st, w)
  {
    var st := RunAll(p, runs, EMPTY);
    EmptyInv(p, false);
    RunsKeepInv(p, runs, EMPTY, false);
    RunsKeepInv(p, more, st, false);
    HoleKept(p, st, RunAll(p, more, st), w);
  }

  // ----- a hole, as a sequence of runs -----

  /** Answers with which a window is exported. */
  function Fine(s: Streamed): Env {
    Env(NoCrash, false, Body([], false, Some(s)), false, Uploaded, None, false, "", false, PutOk, PutOk)
  }

  function Down(): Env {
    Env(NoCrash, false, QueryError, false, Uploaded, None, false, "", false, PutOk, PutOk)
  }

  function Hour(h: int): Window { Window(PLATFORM_STREAM, PLATFORM_TENANT, h) }

  function TwoHours(compliance: bool): Config {
    Config(compliance, [PLATFORM_STREAM], [], 0, 2, "", "")
  }

  /** A run over hours `h` and `h + 1`; the query for its first window fails if `down`. */
  function RunAt(compliance: bool, h: int, s: Streamed, down: bool): RunInput {
    RunInput(TwoHours(compliance), (h + 2) * HOUR, true, false, [], (i: nat) => false,
             (i: nat) => if down && i == 0 then Down() else Fine(s))
  }

  lemma RunAtSpan(compliance: bool, h: int, s: Streamed, down: bool)
    ensures UpTo(RunAt(compliance, h, s, down)) == h + 2 && From(RunAt(compliance, h, s, down)) == h
  {
    assert (h + 2) * HOUR / HOUR == h + 2;
  }

  lemma RunAtWindows(compliance: bool, h: int, s: Streamed, down: bool, st: Store)
    requires !Stored(st, Hour(h))
    ensures Windows(RunAt(compliance, h, s, down), st) ==
            [Hour(h)] + if Stored(st, Hour(h + 1)) then [] else [Hour(h + 1)]
  {
    RunAtSpan(compliance, h, s, down);
    var (t, stream, cfg) := (PLATFORM_TENANT, PLATFORM_STREAM, TwoHours(compliance));
    assert HourWindows(st, stream, t, h, h) == [];
    assert HourWindows(st, stream, t, h, h + 1) == [Hour(h)];
    var hours := HourWindows(st, stream, t, h, h + 2);
    assert [t][..0] == [] && [stream][..0] == [];
    assert TenantWindows(st, stream, [], h, h + 2) == [] && TenantWindows(st, stream, [t], h, h + 2) == [] + hours;
    assert StreamWindows(st, cfg, [], [], h, h + 2) == [] && StreamWindows(st, cfg, [], [stream], h, h + 2) == [] + hours;
  }

  lemma FineStores(p: Site, cfg: Config, st: Store, w: Window, s: Streamed)
    requires !Stored(st, w) && DataKey(w) !in st.objects
    ensures Attempt(p, cfg, st, w, Fine(s)).1 == Exported
    ensures Stored(Tried(p, cfg, st, w, Fine(s)), w)
    ensures forall k: Key :: k.w != w ==> (k in Tried(p, cfg, st, w, Fine(s)).objects <==> k in st.objects)
  {}

  lemma HonestAt(p: Site, compliance: bool, h: int, s: Streamed, down: bool)
    requires p.readable([]) && p.tells([], s)
    ensures HonestRun(p, RunAt(compliance, h, s, down))
  {
    assert Honest(p, Fine(s)) && Honest(p, Down());
  }

  /** The first run: hour `h` fails, the hour after it is exported. */
  lemma FirstRun(p: Site, compliance: bool, h: int, s: Streamed)
    ensures var st := RunOnce(p, RunAt(compliance, h, s, true), EMPTY);
      Stored(st, Hour(h + 1)) && forall k: Key :: k.w == Hour(h) ==> k !in st.objects
  {
    var r := RunAt(compliance, h, s, true);
    RunAtWindows(compliance, h, s, true, EMPTY);
    var ws := Windows(r, EMPTY);
    var turn := Turns(p, r, ws);
    assert r.envs(0) == Down() && Attempt(p, r.cfg, EMPTY, ws[0], Down()) == (Unchanged, Failed);
    assert turn(EMPTY, 0) == Step(EMPTY, false, true);
    assert Loop(turn, EMPTY, 0) == Step(EMPTY, false, false);
    assert Loop(turn, EMPTY, 1) == Step(EMPTY, false, true);
    FineStores(p, r.cfg, EMPTY, ws[1], s);
    assert Loop(turn, EMPTY, 2).st == Tried(p, r.cfg, EMPTY, ws[1], Fine(s));
  }

  /** The second run fills the hole. */
  lemma SecondRun(p: Site, compliance: bool, h: int, s: Streamed, st: Store)
    requires Stored(st, Hour(h + 1)) && forall k: Key :: k.w == Hour(h) ==> k !in st.objects
    ensures Stored(RunOnce(p, RunAt(compliance, h, s, false), st), Hour(h))
  {
    var r := RunAt(compliance, h, s, false);
    RunAtWindows(compliance, h, s, false, st);
    var ws := Windows(r, st);
    var turn := Turns(p, r, ws);
    FineStores(p, r.cfg, st, ws[0], s);
    assert Loop(turn, st, 0) == Step(st, false, false);
    assert Loop(turn, st, 1).st == Tried(p, r.cfg, st, ws[0], Fine(s));
  }

  /** Two runs, in either mode, that leave the manifests of two adjacent hours stored and unlinked for
      ever: the query for the first hour fails once. */
  lemma FilledHole(p: Site, compliance: bool, h: int, s: Streamed, more: seq<RunInput>)
    requires NonEmptyHashes(p) && HonestRuns(p, more) && p.readable([]) && p.tells([], s)
    ensures var runs := [RunAt(compliance, h, s, true), RunAt(compliance, h, s, false)];
      var st := RunAll(p, more, RunAll(p, runs, EMPTY));
      HonestRuns(p, runs) && Stored(st, Hour(h)) && Stored(st, Hour(h + 1)) && !LinksBack(p, st, Hour(h + 1))
  {
    var first, second := RunAt(compliance, h, s, true), RunAt(compliance, h, s, false);
    var runs := [first, second];
    HonestAt(p, compliance, h, s, true);
    HonestAt(p, compliance, h, s, false);
    assert runs[..1] == [first] && [first][..0] == [] && runs == [first] + [second];
    var st1 := RunOnce(p, first, EMPTY);
    assert RunAll(p, [first], EMPTY) == st1;
    FirstRun(p, compliance, h, s);
    SecondRun(p, compliance, h, s, st1);
    assert RunAll(p, runs, EMPTY) == RunOnce(p, second, st1);
    EmptyInv(p, false);
    RunsKeepInv(p, runs, EMPTY, false);
    RunsKeepInv(p, more, RunAll(p, runs, EMPTY), false);
    assert Previous(Hour(h + 1)) == Hour(h) && !Stored(st1, Hour(h));
    assert ManifestKey(Hour(h)).w == Hour(h);
    RunKeepsInv(p, first, EMPTY, false);
    RunKeepsInv(p, second, st1, false);
    HoleKept(p, st1, RunAll(p, more, RunAll(p, runs, EMPTY)), Hour(h + 1));
  }

  // ----- write-once, exactly -----

  predicate AllWith(cfg: Config, runs: seq<RunInput>) { forall i :: 0 <= i < |runs| ==> runs[i].cfg == cfg }

  lemma NoWindows(r: RunInput, st: Store)
    requires r.cfg.streams == [] || r.cfg.catchUpHours < 1
    ensures Windows(r, st) == []
  {
    var ws := Windows(r, st);
    if ws != [] { StreamWindowsMember(st, r.cfg, r.discovered, r.cfg.streams, From(r), UpTo(r), ws[0]); }
  }

  lemma {:induction false} NothingDone(p: Site, cfg: Config, runs: seq<RunInput>)
    requires AllWith(cfg, runs) && (cfg.streams == [] || cfg.catchUpHours < 1)
    ensures RunAll(p, runs, EMPTY) == EMPTY
  {
    if runs != [] {
      var n := |runs| - 1;
      NothingDone(p, cfg, runs[..n]);
      NoWindows(runs[n], EMPTY);
      assert Loop(Turns(p, runs[n], []), EMPTY, 0) == Step(EMPTY, false, false);
    }
  }

  /** The process dies after the upload of the first window's data. */
  function Dying(cfg: Config, s: Streamed): RunInput {
    RunInput(cfg, 0, true, false, ["t"], (i: nat) => false, (i: nat) => Fine(s).(crash := AfterData))
  }

  lemma DyingHasWindow(cfg: Config, s: Streamed, st: Store)
    requires cfg.streams != [] && cfg.catchUpHours >= 1 && forall w :: !Stored(st, w)
    ensures Windows(Dying(cfg, s), st) != []
  {
    var r := Dying(cfg, s);
    var stream := cfg.streams[0];
    var tenants := TenantsFor(cfg, r.discovered, stream);
    assert tenants != [];
    var w := Window(stream, tenants[0], UpTo(r) - 1);
    StreamWindowsMember(st, cfg, r.discovered, cfg.streams, From(r), UpTo(r), w);
  }

  /** Which windows a run takes on depends only on the manifests that are there. */
  lemma {:induction false} SameHours(st: Store, st': Store, s: string, t: string, from: int, upTo: int)
    requires forall w :: Stored(st, w) <==> Stored(st', w)
    ensures HourWindows(st, s, t, from, upTo) == HourWindows(st', s, t, from, upTo)
    decreases upTo - from
  {
    if from < upTo { SameHours(st, st', s, t, from, upTo - 1); }
  }

  lemma {:induction false} SameTenants(st: Store, st': Store, s: string, ts: seq<string>, from: int, upTo: int)
    requires forall w :: Stored(st, w) <==> Stored(st', w)
    ensures TenantWindows(st, s, ts, from, upTo) == TenantWindows(st', s, ts, from, upTo)
  {
    if ts != [] {
      SameTenants(st, st', s, ts[..|ts| - 1], from, upTo);
      SameHours(st, st', s, ts[|ts| - 1], from, upTo);
    }
  }

  lemma {:induction false} SameStreams(st: Store, st': Store, cfg: Config, d: seq<string>, ss: seq<string>, from: int, upTo: int)
    requires forall w :: Stored(st, w) <==> Stored(st', w)
    ensures StreamWindows(st, cfg, d, ss, from, upTo) == StreamWindows(st', cfg, d, ss, from, upTo)
  {
    if ss != [] {
      var s := ss[|ss| - 1];
      SameStreams(st, st', cfg, d, ss[..|ss| - 1], from, upTo);
      SameTenants(st, st', s, TenantsFor(cfg, d, s), from, upTo);
    }
  }

  lemma DyingRun(p: Site, cfg: Config, s: Streamed, st: Store)
    requires !cfg.compliance && (forall w :: !Stored(st, w)) && Windows(Dying(cfg, s), st) != []
    ensures RunOnce(p, Dying(cfg, s), st) == Put(st, DataKey(Windows(Dying(cfg, s), st)[0]), s.data)
  {
    var r := Dying(cfg, s);
    var ws := Windows(r, st);
    var turn := Turns(p, r, ws);
    var after := Put(st, DataKey(ws[0]), s.data);
    assert turn(st, 0) == Step(after, true, false);
    assert Loop(turn, st, 0) == Step(st, false, false);
    LoopStep(turn, turn, st, 0, |ws|, Step(st, false, false), Step(after, true, false));
  }

  /** Without compliance mode a run that dies after an upload and its retry write one key twice. */
  lemma RetryOverwritesData(p: Site, cfg: Config, s: Streamed)
    requires !cfg.compliance && cfg.streams != [] && cfg.catchUpHours >= 1
    ensures var runs := [Dying(cfg, s), Dying(cfg, s)];
      exists k :: multiset(RunAll(p, runs, EMPTY).log)[k] == 2
  {
    var r := Dying(cfg, s);
    var runs := [r, r];
    assert runs[..1] == [r] && [r][..0] == [];
    DyingHasWindow(cfg, s, EMPTY);
    DyingRun(p, cfg, s, EMPTY);
    var k := DataKey(Windows(r, EMPTY)[0]);
    var st := Put(EMPTY, k, s.data);
    DyingAgain(p, cfg, s, k);
    assert RunAll(p, [r], EMPTY) == st;
    assert RunAll(p, runs, EMPTY) == RunOnce(p, r, st);
    assert multiset(RunAll(p, runs, EMPTY).log)[k] == 2;
  }

  lemma DyingAgain(p: Site, cfg: Config, s: Streamed, k: Key)
    requires !cfg.compliance && Windows(Dying(cfg, s), EMPTY) != [] && k == DataKey(Windows(Dying(cfg, s), EMPTY)[0])
    ensures RunOnce(p, Dying(cfg, s), Put(EMPTY, k, s.data)).log == [k, k]
  {
    var r, st := Dying(cfg, s), Put(EMPTY, k, s.data);
    SameStreams(EMPTY, st, cfg, r.discovered, cfg.streams, From(r), UpTo(r));
    DyingRun(p, cfg, s, st);
  }

  ghost predicate WritesOnce(p: Site, cfg: Config) {
    forall runs, k :: HonestRuns(p, runs) && AllWith(cfg, runs) ==> multiset(RunAll(p, runs, EMPTY).log)[k] <= 1
  }

  /** For a configuration that lists windows at all, every sequence of its runs writes every key at
      most once exactly when compliance mode is on. */
  lemma WriteOnceExactly(p: Site, cfg: Config, s: Streamed)
    requires p.readable([]) && p.tells([], s)
    ensures WritesOnce(p, cfg) <==> cfg.compliance || cfg.streams == [] || cfg.catchUpHours < 1
  {
    if cfg.compliance {
      forall runs, k | HonestRuns(p, runs) && AllWith(cfg, runs) ensures multiset(RunAll(p, runs, EMPTY).log)[k] <= 1 {
        WriteOnce(p, runs, k);
      }
    } else if cfg.streams == [] || cfg.catchUpHours < 1 {
      forall runs, k | HonestRuns(p, runs) && AllWith(cfg, runs) ensures multiset(RunAll(p, runs, EMPTY).log)[k] <= 1 {
        NothingDone(p, cfg, runs);
      }
    } else {
      var runs := [Dying(cfg, s), Dying(cfg, s)];
      assert HonestRun(p, Dying(cfg, s));
      assert HonestRuns(p, runs) && AllWith(cfg, runs);
      RetryOverwritesData(p, cfg, s);
    }
  }

  // ----- the same, of the actual exporter -----

  /** A window without events can be exported. */
  lemma EmptyResponse(platform: Platform, p: Site) returns (s: Streamed)
    requires MadeBy(platform, p)
    ensures p.readable([]) && p.tells([], s)
  {
    var none: seq<string> := [];
    var r := SomeStreaming(platform, none, false, Uploaded);
    assert AllReadable(platform, none, |none|);
    s := r.value;
    assert Tells(platform, none, s);
  }

  lemma ExporterWritesOnce(platform: Platform, p: Site, cfg: Config)
    requires MadeBy(platform, p)
    ensures WritesOnce(p, cfg) <==> cfg.compliance || cfg.streams == [] || cfg.catchUpHours < 1
  {
    var s := EmptyResponse(platform, p);
    WriteOnceExactly(p, cfg, s);
  }

  lemma ExporterLeavesHole(platform: Platform, p: Site, compliance: bool, h: int, more: seq<RunInput>) returns (runs: seq<RunInput>)
    requires MadeBy(platform, p) && NonEmptyHashes(p) && HonestRuns(p, more)
    ensures HonestRuns(p, runs) && AllWith(TwoHours(compliance), runs)
    ensures var st := RunAll(p, more, RunAll(p, runs, EMPTY));
      Stored(st, Hour(h)) && Stored(st, Hour(h + 1)) && !LinksBack(p, st, Hour(h + 1))
  {
    var s := EmptyResponse(platform, p);
    runs := [RunAt(compliance, h, s, true), RunAt(compliance, h, s, false)];
    FilledHole(p, compliance, h, s, more);
  }
}
