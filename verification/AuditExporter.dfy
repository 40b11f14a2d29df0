/** The audit exporter as it works: the calls of `Run`, `exportWindow`, `streamDataToS3` and
    `previousManifestSHA256` on a mutable bucket, each proved to do what the protocol says. */
module AuditExporter {
  import opened Text
  import opened CanonicalJson
  import opened AuditEvents
  import opened Manifests
  import opened ExportSite
  import opened ExportProtocol
  import opened AuditRuns

  /** `env'` is `env` with the result of streaming filled in. */
  ghost predicate Settles(p: Site, env: Env, env': Env) {
    Honest(p, env') &&
    if env.query.Body? && env'.query.Body? then env' == env.(query := env.query.(streamed := env'.query.streamed))
    else env' == env
  }

  function WithResult(env: Env, streamed: Option<Streamed>): Env
    requires env.query.Body?
  {
    env.(query := env.query.(streamed := streamed))
  }

  lemma StreamingHonest(platform: Platform, p: Site, env: Env)
    requires MadeBy(platform, p) && env.query.Body?
    requires Streaming(platform, env.query.lines, env.query.scanFails, env.upload, env.query.streamed)
    ensures Honest(p, env)
  {
    if env.query.streamed.Some? { assert Tells(platform, env.query.lines, env.query.streamed.value); }
  }

  lemma SomeSettlement(platform: Platform, p: Site, env: Env)
    requires MadeBy(platform, p)
    ensures exists env' :: Settles(p, env, env')
  {
    if env.query.Body? {
      var r := SomeStreaming(platform, env.query.lines, env.query.scanFails, env.upload);
      StreamingHonest(platform, p, WithResult(env, r));
      assert Settles(p, env, WithResult(env, r));
    } else {
      assert Settles(p, env, env);
    }
  }

  ghost function Settlement(platform: Platform, p: Site, env: Env): (env': Env)
    requires MadeBy(platform, p)
    ensures Settles(p, env, env')
  {
    SomeSettlement(platform, p, env);
    var e :| Settles(p, env, e);
    e
  }

  ghost function SettleAll(platform: Platform, p: Site, r: RunInput): (r': RunInput)
    requires MadeBy(platform, p)
    ensures Settled(p, r, r')
  {
    r.(envs := (i: nat) => Settlement(platform, p, r.envs(i)))
  }

  lemma SettledRefusal(p: Site, cfg: Config, st: Store, w: Window, env: Env, env': Env)
    requires Settles(p, env, env') && Refused(cfg, st, w, env).Some?
    ensures Attempt(p, cfg, st, w, env') == (Unchanged, Refused(cfg, st, w, env).value)
    ensures Tried(p, cfg, st, w, env') == st
  {}

  lemma SettledAttempt(p: Site, cfg: Config, st: Store, w: Window, env: Env, streamed: Option<Streamed>)
    requires env.query.Body? && Refused(cfg, st, w, env).None?
    ensures var r := Attempt(p, cfg, st, w, WithResult(env, streamed));
      r == if streamed.None? then (Leftover(env), Failed) else Finish(p, cfg, st, w, env, streamed.value)
  {}

  /** `r'` is the run with the results of streaming filled in. */
  ghost predicate Settled(p: Site, r: RunInput, r': RunInput) {
    r' == r.(envs := r'.envs) && forall i: nat :: Settles(p, r.envs(i), r'.envs(i))
  }

  function WithEnv(r: RunInput, i: nat, env: Env): RunInput {
    r.(envs := (j: nat) => if j == i then env else r.envs(j))
  }

  lemma TurnIs(p: Site, r: RunInput, ws: seq<Window>, st: Store, i: nat, env: Env, o: Outcome, st': Store)
    requires i < |ws| && !r.cancelled(i) && r.envs(i) == env
    requires o == Attempt(p, r.cfg, st, ws[i], env).1 && st' == Tried(p, r.cfg, st, ws[i], env)
    ensures Turns(p, r, ws)(st, i) == Step(st', o.SourceOutage? || o.Crashed?, o.Failed?)
  {}

  /** The loop stands after `i` turns, none of which ended the run. */
  ghost predicate Stands(p: Site, r: RunInput, r': RunInput, ws: seq<Window>, st0: Store, i: nat, st: Store, ok: bool) {
    i <= |ws| && Settled(p, r, r') && Loop(Turns(p, r', ws), st0, i) == Step(st, false, !ok)
  }

  /** The loop has come to its end. */
  ghost predicate Ends(p: Site, r: RunInput, r': RunInput, ws: seq<Window>, st0: Store, st: Store, ok: bool) {
    Settled(p, r, r') && var end := ExportAll(p, r', st0, ws); st == end.st && (ok <==> !end.stop && !end.failed)
  }

  lemma Cancelled(p: Site, r: RunInput, r': RunInput, ws: seq<Window>, st0: Store, i: nat, st: Store, ok: bool)
    requires Stands(p, r, r', ws, st0, i, st, ok) && i < |ws| && r.cancelled(i)
    ensures Ends(p, r, r', ws, st0, st, false)
  {
    var turn := Turns(p, r', ws);
    assert turn(st, i) == Step(st, true, false);
    LoopStep(turn, turn, st0, i, |ws|, Step(st, false, !ok), Step(st, true, false));
  }

  lemma EarlierAgree(p: Site, r: RunInput, ws: seq<Window>, i: nat, env: Env)
    ensures forall s: Store, j: nat :: j < i ==> Turns(p, r, ws)(s, j) == Turns(p, WithEnv(r, i, env), ws)(s, j)
  {
    var r' := WithEnv(r, i, env);
    forall s: Store, j: nat | j < i ensures Turns(p, r, ws)(s, j) == Turns(p, r', ws)(s, j) {
      assert r'.envs(j) == r.envs(j);
    }
  }

  lemma SettledNext(p: Site, r: RunInput, r0: RunInput, i: nat, env: Env)
    requires Settled(p, r, r0) && Settles(p, r.envs(i), env)
    ensures Settled(p, r, WithEnv(r0, i, env))
  {}

  lemma TurnDone(p: Site, r: RunInput, r0: RunInput, ws: seq<Window>, st0: Store, i: nat, st: Store, ok: bool,
                 env: Env, next: Step)
    requires Stands(p, r, r0, ws, st0, i, st, ok) && i < |ws| && Settles(p, r.envs(i), env)
    requires Turns(p, WithEnv(r0, i, env), ws)(st, i) == next
    ensures var r' := WithEnv(r0, i, env);
      if next.stop then Ends(p, r, r', ws, st0, next.st, false)
      else Stands(p, r, r', ws, st0, i + 1, next.st, ok && !next.failed)
  {
    EarlierAgree(p, r0, ws, i, env);
    SettledNext(p, r, r0, i, env);
    LoopStep(Turns(p, r0, ws), Turns(p, WithEnv(r0, i, env), ws), st0, i, |ws|, Step(st, false, !ok), next);
  }

  lemma LoopStarts(p: Site, r: RunInput, r': RunInput, ws: seq<Window>, st0: Store)
    requires Settled(p, r, r')
    ensures Stands(p, r, r', ws, st0, 0, st0, true)
  {}

  lemma AllDone(p: Site, r: RunInput, r': RunInput, ws: seq<Window>, st0: Store, st: Store, ok: bool)
    requires Stands(p, r, r', ws, st0, |ws|, st, ok)
    ensures Ends(p, r, r', ws, st0, st, ok)
  {}

  lemma RunEnds(p: Site, r: RunInput, r': RunInput, st0: Store, st: Store, ok: bool)
    requires Starts(r) && Ends(p, r, r', Windows(r, st0), st0, st, ok)
    ensures Settled(p, r, r') && st == RunOnce(p, r', st0) && (ok <==> Reports(p, r', st0))
  {}

  lemma SettledKeeps(p: Site, r: RunInput, r': RunInput, st: Store, worm: bool)
    requires Settled(p, r, r') && Inv(p, st, worm) && (worm ==> r.cfg.compliance)
    ensures Inv(p, RunOnce(p, r', st), worm)
  {
    RunKeepsInv(p, r', st, worm);
  }

  /** The exporter at work on its bucket. The write record is a proof device. */
  class Exporter {
    const platform: Platform
    ghost const p: Site
    var objects: map<Key, string>
    ghost var log: seq<Key>
    ghost var blind: set<Window>

    ghost function State(): Store
      reads this
    {
      Store(objects, log, blind)
    }

    ghost predicate Valid() { MadeBy(platform, p) && Streams(platform) }

    constructor (platform: Platform)
      requires Streams(platform)
      ensures Valid() && State() == EMPTY && this.platform == platform && p == SiteOf(platform)
    {
      SiteMade(platform);
      this.platform, p := platform, SiteOf(platform);
      objects, log, blind := map[], [], {};
    }

    method PutObject(k: Key, b: string, outcome: PutOutcome) returns (ok: bool)
      modifies this
      ensures State() == if outcome.PutLost? then old(State()) else Put(old(State()), k, b)
      ensures ok <==> outcome.PutOk?
    {
      if !outcome.PutLost? {
        objects := objects[k := b];
        log := log + [k];
      }
      ok := outcome.PutOk?;
    }

    method PreviousManifestSHA256(w: Window, readFails: bool) returns (hash: string)
      requires Valid()
      ensures hash == PreviousHash(p, State(), w, readFails)
    {
      var k := ManifestKey(Previous(w));
      if readFails || k !in objects || !ValidText(objects[k]) { return ""; }
      hash := platform.sha256(objects[k]);
    }

    method MarshalManifest(m: Manifest) returns (bytes: string)
      requires Valid()
      ensures bytes == p.spell(m)
    {
      bytes := MarshalSorted(Tree(m));
      assert bytes == Bytes(m);
    }

    /** Steps 3 to 6 of exportWindow, once the data object is there. */
    method CommitWindow(cfg: Config, w: Window, env: Env, s: Streamed, ghost st: Store) returns (o: Outcome)
      requires Valid() && State() == Put(st, DataKey(w), s.data)
      modifies this
      ensures var r := Finish(p, cfg, st, w, env, s); o == r.1 && State() == Apply(p, st, w, r.0)
    {
      if env.crash.AfterData? { return Crashed; }
      var previous := PreviousManifestSHA256(w, env.previousReadFails);
      var m := BuildManifest(platform.hourText, cfg, w, s.stats, previous, env.createdAt);
      var bytes := MarshalManifest(m);
      if env.signFails { return Failed; }
      var sig := platform.sign(bytes);
      o := PublishManifest(w, env, bytes, sig, s.data, m, st);
    }

    /** Uploads the signature, then the manifest. */
    method PublishManifest(w: Window, env: Env, bytes: string, sig: string, ghost data: string, ghost m: Manifest, ghost st: Store)
      returns (o: Outcome)
      requires State() == Put(st, DataKey(w), data) && bytes == p.spell(m) && sig == p.sign(bytes)
      modifies this
      ensures var r := Publish(env, data, m); o == r.1 && State() == Apply(p, st, w, r.0)
    {
      var ok := PutObject(SignatureKey(w), sig, env.signaturePut);
      if !ok { return Failed; }
      if env.crash.AfterSignature? { return Crashed; }
      ok := PutObject(ManifestKey(w), bytes, env.manifestPut);
      if !env.manifestPut.PutLost? && env.previousReadFails { blind := blind + {w}; }
      o := if ok then Exported else Failed;
    }

    /** The checks of exportWindow before it writes. */
    method Check(cfg: Config, w: Window, env: Env) returns (o: Option<Outcome>)
      ensures o == Refused(cfg, State(), w, env)
    {
      if env.crash.BeforeData? { return Some(Crashed); }
      if env.manifestCheckFails { return Some(Failed); }
      if ManifestKey(w) in objects { return Some(Skipped); }
      match env.query
      case SourceDown => return Some(SourceOutage);
      case QueryError => return Some(Failed);
      case Body(_, _, _) =>
        if cfg.compliance && (env.dataCheckFails || DataKey(w) in objects) { return Some(Failed); }
        o := None;
    }

    /** Streams the response; `env'` has the result. */
    method StreamWindow(env: Env) returns (streamed: Option<Streamed>, ghost env': Env)
      requires Valid() && env.query.Body?
      ensures Settles(p, env, env') && env' == WithResult(env, streamed)
    {
      ghost var pieces;
      streamed, pieces := StreamDataToS3(platform, env.query.lines, env.query.scanFails, env.upload);
      env' := WithResult(env, streamed);
      StreamingHonest(platform, p, env');
    }

    /** Puts the data object, or what a failed upload leaves of it. */
    method PutData(w: Window, env: Env, streamed: Option<Streamed>)
      modifies this
      ensures State() == if streamed.Some? then Put(old(State()), DataKey(w), streamed.value.data)
                         else Apply(p, old(State()), w, Leftover(env))
    {
      if streamed.Some? {
        var _ := PutObject(DataKey(w), streamed.value.data, PutOk);
      } else if env.leftover.Some? {
        var _ := PutObject(DataKey(w), env.leftover.value, PutOk);
      }
    }

    /** exportWindow from the upload on. */
    method Upload(cfg: Config, w: Window, env: Env, streamed: Option<Streamed>) returns (o: Outcome)
      requires Valid() && env.query.Body?
      modifies this
      ensures streamed.None? ==> o == Failed && State() == Apply(p, old(State()), w, Leftover(env))
      ensures streamed.Some? ==>
        var r := Finish(p, cfg, old(State()), w, env, streamed.value);
        o == r.1 && State() == Apply(p, old(State()), w, r.0)
    {
      ghost var st := State();
      PutData(w, env, streamed);
      if streamed.None? { return Failed; }
      o := CommitWindow(cfg, w, env, streamed.value, st);
    }

    /** exportWindow. Whatever result of streaming `env` names, the events are streamed here, and the
        outcome is that of `env'`, where the actual result stands. */
    method ExportWindow(cfg: Config, w: Window, env: Env) returns (o: Outcome, ghost env': Env)
      requires Valid()
      modifies this
      ensures Settles(p, env, env')
      ensures o == Attempt(p, cfg, old(State()), w, env').1 && State() == Tried(p, cfg, old(State()), w, env')
    {
      var refused := Check(cfg, w, env);
      if refused.Some? {
        env' := Settlement(platform, p, env);
        SettledRefusal(p, cfg, State(), w, env, env');
        return refused.value, env';
      }
      var streamed;
      streamed, env' := StreamWindow(env);
      ghost var st := State();
      o := Upload(cfg, w, env, streamed);
      SettledAttempt(p, cfg, st, w, env, streamed);
    }

    /** One turn of the loop: whether all is well so far, and whether the run ends here. */
    method ExportNext(r: RunInput, windows: seq<Window>, i: nat, ok0: bool, ghost r0: RunInput, ghost st0: Store)
      returns (ok: bool, stop: bool, ghost r': RunInput)
      requires Valid() && i < |windows| && Stands(p, r, r0, windows, st0, i, State(), ok0)
      modifies this
      ensures if stop then !ok && Ends(p, r, r', windows, st0, State(), false)
              else Stands(p, r, r', windows, st0, i + 1, State(), ok)
    {
      ghost var st := State();
      if r.cancelled(i) {
        Cancelled(p, r, r0, windows, st0, i, st, ok0);
        return false, true, r0;
      }
      ghost var env';
      var o;
      o, env' := ExportWindow(r.cfg, windows[i], r.envs(i));
      r' := WithEnv(r0, i, env');
      TurnIs(p, r', windows, st, i, env', o, State());
      TurnDone(p, r, r0, windows, st0, i, st, ok0, env', Step(State(), o.SourceOutage? || o.Crashed?, o.Failed?));
      stop := o.SourceOutage? || o.Crashed?;
      ok := ok0 && !stop && !o.Failed?;
    }

    /** The export loop of Run. */
    method ExportWindows(r: RunInput, windows: seq<Window>) returns (ok: bool, ghost r': RunInput)
      requires Valid()
      modifies this
      ensures Ends(p, r, r', windows, old(State()), State(), ok)
    {
      ok, r' := true, SettleAll(platform, p, r);
      LoopStarts(p, r, r', windows, State());
      var i := 0;
      while i < |windows|
        invariant i <= |windows| && Stands(p, r, r', windows, old(State()), i, State(), ok)
      {
        var stop;
        ok, stop, r' := ExportNext(r, windows, i, ok, r', old(State()));
        if stop { return; }
        i := i + 1;
      }
      AllDone(p, r, r', windows, old(State()), State(), ok);
    }

    /** Run. The bucket keeps every invariant of the protocol, with nothing assumed of the responses. */
    method Run(r: RunInput) returns (ok: bool, ghost r': RunInput)
      requires Valid()
      modifies this
      ensures Settled(p, r, r')
      ensures State() == RunOnce(p, r', old(State()))
      ensures ok <==> Reports(p, r', old(State()))
      ensures (r.cfg.compliance && !r.bucketLocked) || r.collectFails ==> !ok && State() == old(State())
      ensures !(r.cfg.compliance && !r.bucketLocked) && !r.collectFails ==>
        var end := ExportAll(p, r', old(State()), Windows(r', old(State())));
        State() == end.st && (ok <==> !end.stop && !end.failed)
      ensures forall worm :: Inv(p, old(State()), worm) && (worm ==> r.cfg.compliance) ==> Inv(p, State(), worm)
    {
      ghost var st := State();
      if (r.cfg.compliance && !r.bucketLocked) || r.collectFails { return false, SettleAll(platform, p, r); }
      var windows := CollectWindows(objects, st, r.cfg, r.discovered, From(r), UpTo(r));
      ok, r' := ExportWindows(r, windows);
      RunEnds(p, r, r', st, State(), ok);
      forall worm | Inv(p, st, worm) && (worm ==> r.cfg.compliance) ensures Inv(p, State(), worm) {
        SettledKeeps(p, r, r', st, worm);
      }
    }
  }

  // ----- what an auditor finds -----

  lemma StoredWitnessed(p: Site, runs: seq<RunInput>, w: Window)
    requires HonestRuns(p, runs) && Stored(RunAll(p, runs, EMPTY), w)
    ensures Described(p, RunAll(p, runs, EMPTY).objects, w)
  {
    EmptyInv(p, false);
    RunsKeepInv(p, runs, EMPTY, false);
  }

  lemma DescribedMeans(platform: Platform, p: Site, o: map<Key, string>, w: Window)
    returns (f: Facts, lines: seq<string>, events: seq<Json>)
    requires MadeBy(platform, p) && ManifestKey(w) in o && Described(p, o, w)
    ensures Found(platform, o, w, f, lines, events)
  {
    f := p.read(o[ManifestKey(w)]).value;
    assert ReadFacts(o[ManifestKey(w)]) == Some(f);
    lines, events := WitnessTallies(platform, p, o[DataKey(w)], f);
  }

  /** The manifest of `w` is signed as it stands, and its digest, size, event count and policy lists
      are those of the data object beside it: the events of a response, one a line, compressed. */
  ghost predicate Found(platform: Platform, o: map<Key, string>, w: Window, f: Facts, lines: seq<string>, events: seq<Json>) {
    ManifestKey(w) in o && DataKey(w) in o && SignatureKey(w) in o &&
    o[SignatureKey(w)] == platform.sign(o[ManifestKey(w)]) &&
    ReadFacts(o[ManifestKey(w)]) == Some(f) && Tallies(platform, o[DataKey(w)], f, lines, events) &&
    f.stream == w.stream && f.tenant == w.tenant &&
    f.windowStart == platform.hourText(w.hour) && f.windowEnd == platform.hourText(w.hour + 1)
  }

  /** After any runs of the actual exporter from the empty bucket this is so for every manifest. */
  lemma StoredMeans(platform: Platform, p: Site, runs: seq<RunInput>, w: Window)
    returns (f: Facts, lines: seq<string>, events: seq<Json>)
    requires MadeBy(platform, p) && HonestRuns(p, runs) && Stored(RunAll(p, runs, EMPTY), w)
    ensures Found(platform, RunAll(p, runs, EMPTY).objects, w, f, lines, events)
  {
    StoredWitnessed(p, runs, w);
    f, lines, events := DescribedMeans(platform, p, RunAll(p, runs, EMPTY).objects, w);
  }
}
