/** Exporting one (stream, tenant, hour) window to the object store: data, then signature, then
    manifest (`exportWindow`). Every call may fail, a put may fail before or after it took effect,
    and the process may die between two puts. The store records every write that took effect. */
module ExportProtocol {
  import opened Text
  import opened AuditEvents
  import opened Manifests
  import opened ExportSite
  import KeyLayout

  datatype Window = Window(stream: string, tenant: string, hour: int)
  datatype Part = DataPart | SignaturePart | ManifestPart

  /** Objects are known by window and part; ObjectName spells the key out. */
  datatype Key = Key(w: Window, part: Part)

  function PartName(part: Part): string {
    match part
    case DataPart => "data.jsonl.gz"
    case SignaturePart => "manifest.json.sig"
    case ManifestPart => "manifest.json"
  }

  predicate Nameable(w: Window) { w.hour >= 0 && KeyLayout.FourDigitYear(w.hour) && '/' !in w.stream }

  function ObjectName(prefix: string, k: Key): string
    requires Nameable(k.w)
  {
    KeyLayout.AuditPrefix(prefix, k.w.stream, k.w.tenant, k.w.hour) + PartName(k.part)
  }

  lemma PartNamesDistinct(a: Part, b: Part)
    requires PartName(a) == PartName(b)
    ensures a == b
  {
    assert |PartName(SignaturePart)| == 17 && PartName(DataPart)[0] == 'd' && PartName(ManifestPart)[0] == 'm';
  }

  /** No two objects of different windows or parts share a key in the bucket. */
  lemma ObjectNamesSeparate(prefix: string, k: Key, k': Key)
    requires Nameable(k.w) && Nameable(k'.w) && ObjectName(prefix, k) == ObjectName(prefix, k')
    ensures k == k'
  {
    var (w, w') := (k.w, k'.w);
    var x := KeyLayout.Base(prefix) + (w.stream + "/" + w.tenant) + "/" + KeyLayout.AuditStamp(w.hour);
    var y := KeyLayout.Base(prefix) + (w'.stream + "/" + w'.tenant) + "/" + KeyLayout.AuditStamp(w'.hour);
    KeyLayout.NamedObjectsSeparate(x, PartName(k.part), y, PartName(k'.part));
    KeyLayout.AuditKeysSeparate(prefix, w.stream, w.tenant, w.hour, w'.stream, w'.tenant, w'.hour);
    PartNamesDistinct(k.part, k'.part);
  }

  /** The objects; the writes that took effect, in order; and the windows whose manifest was written
      while their predecessor's could not be read. */
  datatype Store = Store(objects: map<Key, string>, log: seq<Key>, blind: set<Window>)

  const EMPTY := Store(map[], [], {})

  datatype Config = Config(
    compliance: bool, streams: seq<string>, tenants: seq<string>,
    exportDelay: int, catchUpHours: int, keyId: string, producer: string)

  /** How a put ends: with success, with an error and no effect, or with an error after its effect. */
  datatype PutOutcome = PutOk | PutLost | PutAmbiguous

  /** What the query for a window's events gives: the lines of the response, whether reading it breaks
      off, and what streaming it into the data object comes to. */
  datatype Query = SourceDown | QueryError | Body(lines: seq<string>, scanFails: bool, streamed: Option<Streamed>)

  datatype Crash = NoCrash | BeforeData | AfterData | AfterSignature

  /** What the world answers while one window is exported. `leftover` is what a failed upload leaves. */
  datatype Env = Env(
    crash: Crash, manifestCheckFails: bool, query: Query, dataCheckFails: bool,
    upload: Upload, leftover: Option<string>, previousReadFails: bool, createdAt: string,
    signFails: bool, signaturePut: PutOutcome, manifestPut: PutOutcome)

  /** The result of streaming is one that the lines and the upload can have. */
  ghost predicate Honest(p: Site, env: Env) {
    env.query.Body? ==>
      (env.query.streamed.Some? <==> !env.query.scanFails && env.upload.Uploaded? && p.readable(env.query.lines)) &&
      (env.query.streamed.Some? ==> p.tells(env.query.lines, env.query.streamed.value))
  }

  datatype Outcome = Exported | Skipped | Failed | SourceOutage | Crashed

  /** The writes of one attempt that took effect. */
  datatype Effect =
    | Unchanged
    | PartialData(bytes: string)
    | DataOnly(data: string)
    | DataAndSignature(data: string, m: Manifest)
    | Complete(data: string, m: Manifest, blind: bool)

  function ManifestKey(w: Window): Key { Key(w, ManifestPart) }
  function DataKey(w: Window): Key { Key(w, DataPart) }
  function SignatureKey(w: Window): Key { Key(w, SignaturePart) }
  function Previous(w: Window): Window { w.(hour := w.hour - 1) }

  predicate Stored(st: Store, w: Window) { ManifestKey(w) in st.objects }

  function Put(st: Store, k: Key, b: string): Store { st.(objects := st.objects[k := b], log := st.log + [k]) }

  function Marked(st: Store, w: Window, blind: bool): Store { if blind then st.(blind := st.blind + {w}) else st }

  ghost function Apply(p: Site, st: Store, w: Window, e: Effect): Store {
    match e
    case Unchanged => st
    case PartialData(b) => Put(st, DataKey(w), b)
    case DataOnly(data) => Put(st, DataKey(w), data)
    case DataAndSignature(data, m) => Put(Put(st, DataKey(w), data), SignatureKey(w), p.sign(p.spell(m)))
    case Complete(data, m, blind) =>
      Marked(Put(Put(Put(st, DataKey(w), data), SignatureKey(w), p.sign(p.spell(m))), ManifestKey(w), p.spell(m)), w, blind)
  }

  /** previousManifestSHA256, with the caller's fall-back to the empty string on any error. */
  function PreviousHash(p: Site, st: Store, w: Window, readFails: bool): string {
    if readFails || !Stored(st, Previous(w)) then ""
    else if !p.valid(st.objects[ManifestKey(Previous(w))]) then ""
    else p.sha256(st.objects[ManifestKey(Previous(w))])
  }

  /** The manifest takes its figures from the statistics of the upload. */
  function BuildManifest(hourText: int -> string, cfg: Config, w: Window, stats: Stats, previous: string, createdAt: string): Manifest {
    Manifest(stats.auditPolicies, stats.clusterPolicies, createdAt, stats.sha256hex, stats.sizeBytes, stats.eventCount,
             cfg.keyId, previous, cfg.producer, w.stream, w.tenant, hourText(w.hour + 1), hourText(w.hour))
  }

  /** The checks of exportWindow before anything is written; `None` is to go on. */
  function Refused(cfg: Config, st: Store, w: Window, env: Env): Option<Outcome> {
    if env.crash.BeforeData? then Some(Crashed)
    else if env.manifestCheckFails then Some(Failed)
    else if Stored(st, w) then Some(Skipped)
    else if env.query.SourceDown? then Some(SourceOutage)
    else if env.query.QueryError? then Some(Failed)
    else if cfg.compliance && (env.dataCheckFails || DataKey(w) in st.objects) then Some(Failed)
    else None
  }

  /** What a failed upload may leave behind. */
  function Leftover(env: Env): Effect {
    if env.leftover.Some? then PartialData(env.leftover.value) else Unchanged
  }

  /** What exportWindow does to the store and returns, given the world's answers. */
  function Attempt(p: Site, cfg: Config, st: Store, w: Window, env: Env): (Effect, Outcome) {
    match Refused(cfg, st, w, env)
    case Some(o) => (Unchanged, o)
    case None =>
      match env.query.streamed
      case None => (Leftover(env), Failed)
      case Some(s) => Finish(p, cfg, st, w, env, s)
  }

  /** The steps after the data object was uploaded. The previous manifest has another key than the
      data object, so it may be read from the store as it was. */
  function Finish(p: Site, cfg: Config, st: Store, w: Window, env: Env, s: Streamed): (Effect, Outcome) {
    var m := BuildManifest(p.hourText, cfg, w, s.stats, PreviousHash(p, st, w, env.previousReadFails), env.createdAt);
    if env.crash.AfterData? then (DataOnly(s.data), Crashed)
    else if env.signFails then (DataOnly(s.data), Failed)
    else Publish(env, s.data, m)
  }

  /** The signature goes first, the manifest last. */
  function Publish(env: Env, data: string, m: Manifest): (Effect, Outcome) {
    if env.signaturePut.PutLost? then (DataOnly(data), Failed)
    else if env.signaturePut.PutAmbiguous? then (DataAndSignature(data, m), Failed)
    else if env.crash.AfterSignature? then (DataAndSignature(data, m), Crashed)
    else if env.manifestPut.PutLost? then (DataAndSignature(data, m), Failed)
    else (Complete(data, m, env.previousReadFails), if env.manifestPut.PutOk? then Exported else Failed)
  }

  /** The store after an attempt. */
  ghost function Tried(p: Site, cfg: Config, st: Store, w: Window, env: Env): Store {
    Apply(p, st, w, Attempt(p, cfg, st, w, env).0)
  }

  // ----- what a stored manifest means -----

  /** The manifest of `w` is signed as it stands and describes the stored data object. */
  ghost predicate Described(p: Site, objects: map<Key, string>, w: Window)
    requires ManifestKey(w) in objects
  {
    DataKey(w) in objects && SignatureKey(w) in objects &&
    objects[SignatureKey(w)] == p.sign(objects[ManifestKey(w)]) &&
    match p.read(objects[ManifestKey(w)])
    case None => false
    case Some(f) =>
      Witnessed(p, objects[DataKey(w)], f) &&
      f.stream == w.stream && f.tenant == w.tenant &&
      f.windowStart == p.hourText(w.hour) && f.windowEnd == p.hourText(w.hour + 1)
  }

  /** The manifest of `w` names no predecessor, or exactly the one that is stored. */
  ghost predicate LinkSound(p: Site, objects: map<Key, string>, w: Window)
    requires ManifestKey(w) in objects
  {
    var f := p.read(objects[ManifestKey(w)]);
    f.Some? && (f.value.previous == "" ||
      (ManifestKey(Previous(w)) in objects && f.value.previous == p.sha256(objects[ManifestKey(Previous(w))])))
  }

  /** Commit-last safety. */
  ghost predicate Committed(p: Site, st: Store) {
    forall w :: Stored(st, w) ==> Described(p, st.objects, w)
  }

  ghost predicate ChainSound(p: Site, st: Store) {
    forall w :: Stored(st, w) ==> LinkSound(p, st.objects, w)
  }

  /** Objects are exactly what was written; no manifest is ever written twice, and under write-once
      (`worm`) nothing is. */
  ghost predicate WritesSound(st: Store, worm: bool) {
    (forall k :: k in st.objects <==> k in st.log) &&
    forall i, j :: 0 <= i < j < |st.log| && st.log[i] == st.log[j] ==> !worm && !st.log[i].part.ManifestPart?
  }

  /** A signature comes after its data, a manifest after its signature. */
  ghost predicate InOrder(st: Store) {
    (forall w :: SignatureKey(w) in st.objects ==> DataKey(w) in st.objects) &&
    forall w :: Stored(st, w) ==> SignatureKey(w) in st.objects
  }

  ghost predicate LogSound(st: Store, worm: bool) { WritesSound(st, worm) && InOrder(st) }

  ghost predicate Inv(p: Site, st: Store, worm: bool) {
    Committed(p, st) && ChainSound(p, st) && LogSound(st, worm)
  }

  /** Stored manifests are never changed or removed. */
  ghost predicate Keeps(st: Store, st': Store) {
    forall w :: Stored(st, w) ==> Stored(st', w) && st'.objects[ManifestKey(w)] == st.objects[ManifestKey(w)]
  }

  // ----- every attempt keeps it -----

  /** The manifest is built from statistics that describe the data written with it. */
  ghost predicate Sourced(p: Site, cfg: Config, w: Window, e: Effect, lines: seq<string>, stats: Stats)
    requires e.Complete?
  {
    p.tells(lines, Streamed(stats, e.data)) && e.m == BuildManifest(p.hourText, cfg, w, stats, e.m.previous, e.m.createdAt)
  }

  /** What the checks at the start of exportWindow guarantee about an effect. */
  ghost predicate Checked(cfg: Config, st: Store, w: Window, e: Effect) {
    e.Unchanged? || (!Stored(st, w) && (cfg.compliance ==> DataKey(w) !in st.objects))
  }

  ghost predicate Guarded(p: Site, cfg: Config, st: Store, w: Window, e: Effect) {
    Checked(cfg, st, w, e) &&
    (e.Complete? ==>
      e.m.previous == PreviousHash(p, st, w, e.blind) &&
      exists lines, stats :: Sourced(p, cfg, w, e, lines, stats))
  }

  lemma AttemptChecked(p: Site, cfg: Config, st: Store, w: Window, env: Env)
    ensures Checked(cfg, st, w, Attempt(p, cfg, st, w, env).0)
  {}

  /** A completed attempt has streamed its data, and its manifest comes from what was streamed. */
  lemma AttemptComplete(p: Site, cfg: Config, st: Store, w: Window, env: Env)
    requires Attempt(p, cfg, st, w, env).0.Complete?
    ensures env.query.Body? && env.query.streamed.Some?
    ensures var s := env.query.streamed.value;
      Attempt(p, cfg, st, w, env).0 == Complete(
        s.data, BuildManifest(p.hourText, cfg, w, s.stats, PreviousHash(p, st, w, env.previousReadFails), env.createdAt),
        env.previousReadFails)
  {}

  lemma AttemptGuarded(p: Site, cfg: Config, st: Store, w: Window, env: Env)
    requires Honest(p, env)
    ensures Guarded(p, cfg, st, w, Attempt(p, cfg, st, w, env).0)
  {
    var e := Attempt(p, cfg, st, w, env).0;
    AttemptChecked(p, cfg, st, w, env);
    if e.Complete? {
      AttemptComplete(p, cfg, st, w, env);
      assert Sourced(p, cfg, w, e, env.query.lines, env.query.streamed.value.stats);
    }
  }

  /** The keys an effect writes belong to its window. */
  lemma ApplyFrame(p: Site, st: Store, w: Window, e: Effect, k: Key)
    requires k.w != w || (k.part.ManifestPart? && !e.Complete?)
    ensures k in Apply(p, st, w, e).objects <==> k in st.objects
    ensures k in st.objects ==> Apply(p, st, w, e).objects[k] == st.objects[k]
  {}

  lemma ApplyKeeps(p: Site, cfg: Config, st: Store, w: Window, e: Effect)
    requires Checked(cfg, st, w, e)
    ensures Keeps(st, Apply(p, st, w, e))
    ensures forall v :: Stored(Apply(p, st, w, e), v) <==> Stored(st, v) || (e.Complete? && v == w)
  {
    forall v | Stored(st, v)
      ensures Stored(Apply(p, st, w, e), v)
      ensures Apply(p, st, w, e).objects[ManifestKey(v)] == st.objects[ManifestKey(v)]
    {
      if v != w || !e.Complete? { ApplyFrame(p, st, w, e, ManifestKey(v)); }
    }
    forall v ensures Stored(Apply(p, st, w, e), v) <==> Stored(st, v) || (e.Complete? && v == w) {
      if v != w || !e.Complete? { ApplyFrame(p, st, w, e, ManifestKey(v)); }
    }
  }

  lemma NewManifest(p: Site, cfg: Config, st: Store, w: Window, e: Effect)
    requires e.Complete? && Guarded(p, cfg, st, w, e)
    ensures Described(p, Apply(p, st, w, e).objects, w)
    ensures LinkSound(p, Apply(p, st, w, e).objects, w)
  {
    var o := Apply(p, st, w, e).objects;
    var lines, stats :| Sourced(p, cfg, w, e, lines, stats);
    assert o[ManifestKey(w)] == p.spell(e.m) && o[DataKey(w)] == e.data;
    assert p.tells(lines, Streamed(stats, o[DataKey(w)])) && States(FactsOf(e.m), stats);
    ApplyFrame(p, st, w, e, ManifestKey(Previous(w)));
  }

  /** Everything a new manifest says, read back from its bytes. */
  lemma ManifestSays(p: Site, cfg: Config, st: Store, w: Window, env: Env)
    requires Attempt(p, cfg, st, w, env).0.Complete?
    ensures env.query.Body? && env.query.streamed.Some?
    ensures var o := Tried(p, cfg, st, w, env).objects;
      var s := env.query.streamed.value.stats;
      ManifestKey(w) in o && p.read(o[ManifestKey(w)]) == Some(Facts(
        s.sha256hex, s.sizeBytes, s.eventCount, Strings(s.auditPolicies), Strings(s.clusterPolicies),
        PreviousHash(p, st, w, env.previousReadFails),
        w.stream, w.tenant, p.hourText(w.hour), p.hourText(w.hour + 1),
        Origin(env.createdAt, cfg.keyId, cfg.producer, "data.jsonl.gz", "HMAC-SHA256", "1", "1")))
  {
    AttemptComplete(p, cfg, st, w, env);
  }

  // ----- when an attempt does what -----

  /** The attempt gets past its checks. */
  predicate Goes(cfg: Config, st: Store, w: Window, env: Env) {
    !env.crash.BeforeData? && !env.manifestCheckFails && !Stored(st, w) && env.query.Body? &&
    !(cfg.compliance && (env.dataCheckFails || DataKey(w) in st.objects))
  }

  /** It has streamed the data, and the process lives on. */
  predicate GoesOn(cfg: Config, st: Store, w: Window, env: Env) {
    Goes(cfg, st, w, env) && env.query.streamed.Some? && !env.crash.AfterData? && !env.signFails
  }

  /** What an attempt returns: it exports exactly when nothing stands against it; it skips exactly the
      windows with a manifest; only an unreachable source is an outage; all else is a failure. */
  lemma AttemptReturns(p: Site, cfg: Config, st: Store, w: Window, env: Env)
    ensures var o := Attempt(p, cfg, st, w, env).1;
      (o.Exported? <==> GoesOn(cfg, st, w, env) && env.crash.NoCrash? && env.signaturePut.PutOk? && env.manifestPut.PutOk?) &&
      (o.Skipped? <==> !env.crash.BeforeData? && !env.manifestCheckFails && Stored(st, w)) &&
      (o.SourceOutage? <==>
        !env.crash.BeforeData? && !env.manifestCheckFails && !Stored(st, w) && env.query.SourceDown?) &&
      (o.Crashed? <==>
        env.crash.BeforeData? ||
        (Goes(cfg, st, w, env) && env.query.streamed.Some? && env.crash.AfterData?) ||
        (GoesOn(cfg, st, w, env) && env.crash.AfterSignature? && env.signaturePut.PutOk?))
  {}

  /** What an attempt writes: the data once it gets past its checks, the signature once the data are
      streamed and signed, the manifest once the signature was put without error. */
  lemma AttemptWrites(p: Site, cfg: Config, st: Store, w: Window, env: Env)
    ensures DataKey(w) in Tried(p, cfg, st, w, env).objects <==>
      DataKey(w) in st.objects || (Goes(cfg, st, w, env) && (env.query.streamed.Some? || env.leftover.Some?))
    ensures SignatureKey(w) in Tried(p, cfg, st, w, env).objects <==>
      SignatureKey(w) in st.objects || (GoesOn(cfg, st, w, env) && !env.signaturePut.PutLost?)
    ensures ManifestKey(w) in Tried(p, cfg, st, w, env).objects <==>
      ManifestKey(w) in st.objects ||
      (GoesOn(cfg, st, w, env) && env.signaturePut.PutOk? && !env.crash.AfterSignature? && !env.manifestPut.PutLost?)
  {}

  /** What stands in the data and signature objects that an attempt wrote; an attempt that is refused
      leaves the store as it was. */
  lemma AttemptLeaves(p: Site, cfg: Config, st: Store, w: Window, env: Env)
    ensures !Goes(cfg, st, w, env) ==> Tried(p, cfg, st, w, env) == st
    ensures Goes(cfg, st, w, env) && env.query.streamed.Some? ==>
      DataKey(w) in Tried(p, cfg, st, w, env).objects &&
      Tried(p, cfg, st, w, env).objects[DataKey(w)] == env.query.streamed.value.data
    ensures Goes(cfg, st, w, env) && env.query.streamed.None? && env.leftover.Some? ==>
      DataKey(w) in Tried(p, cfg, st, w, env).objects &&
      Tried(p, cfg, st, w, env).objects[DataKey(w)] == env.leftover.value
    ensures Goes(cfg, st, w, env) && env.query.streamed.None? && env.leftover.None? ==> Tried(p, cfg, st, w, env) == st
    ensures GoesOn(cfg, st, w, env) && !env.signaturePut.PutLost? ==>
      SignatureKey(w) in Tried(p, cfg, st, w, env).objects &&
      exists b :: p.read(b).Some? && Tried(p, cfg, st, w, env).objects[SignatureKey(w)] == p.sign(b)
  {
    if GoesOn(cfg, st, w, env) && !env.signaturePut.PutLost? {
      var s := env.query.streamed.value;
      var m := BuildManifest(p.hourText, cfg, w, s.stats, PreviousHash(p, st, w, env.previousReadFails), env.createdAt);
      assert p.read(p.spell(m)).Some?;
    }
  }

  lemma ApplyCommitted(p: Site, cfg: Config, st: Store, w: Window, e: Effect)
    requires Guarded(p, cfg, st, w, e) && Committed(p, st)
    ensures Committed(p, Apply(p, st, w, e))
  {
    var st' := Apply(p, st, w, e);
    ApplyKeeps(p, cfg, st, w, e);
    forall v | Stored(st', v) ensures Described(p, st'.objects, v) {
      if v == w && e.Complete? {
        NewManifest(p, cfg, st, w, e);
      } else {
        assert Stored(st, v) && Described(p, st.objects, v);
        if v != w || !e.Unchanged? {
          ApplyFrame(p, st, w, e, DataKey(v));
          ApplyFrame(p, st, w, e, SignatureKey(v));
        }
      }
    }
  }

  lemma ApplyChainSound(p: Site, cfg: Config, st: Store, w: Window, e: Effect)
    requires Guarded(p, cfg, st, w, e) && ChainSound(p, st)
    ensures ChainSound(p, Apply(p, st, w, e))
  {
    var st' := Apply(p, st, w, e);
    ApplyKeeps(p, cfg, st, w, e);
    forall v | Stored(st', v) ensures LinkSound(p, st'.objects, v) {
      if v == w && e.Complete? {
        NewManifest(p, cfg, st, w, e);
      } else {
        assert Stored(st, v) && LinkSound(p, st.objects, v);
        assert Stored(st, Previous(v)) ==> Stored(st', Previous(v));
      }
    }
  }

  /** Writing a key: allowed in write-once mode, and for a manifest in any mode, only if it is new. */
  lemma PutLog(st: Store, k: Key, b: string, worm: bool)
    requires WritesSound(st, worm) && ((worm || k.part.ManifestPart?) ==> k !in st.objects)
    ensures WritesSound(Put(st, k, b), worm)
  {
    var s := Put(st, k, b);
    forall i, j | 0 <= i < j < |s.log| && s.log[i] == s.log[j] ensures !worm && !s.log[i].part.ManifestPart? {
      if j == |st.log| { assert s.log[i] in st.log; }
    }
  }

  lemma ApplyWrites(p: Site, cfg: Config, st: Store, w: Window, e: Effect, worm: bool)
    requires Checked(cfg, st, w, e) && LogSound(st, worm) && (worm ==> cfg.compliance)
    ensures WritesSound(Apply(p, st, w, e), worm)
  {
    match e
    case Unchanged =>
    case PartialData(b) => PutLog(st, DataKey(w), b, worm);
    case DataOnly(data) => PutLog(st, DataKey(w), data, worm);
    case DataAndSignature(data, m) => ApplySigned(p, st, w, data, m, worm);
    case Complete(data, m, blind) =>
      ApplySigned(p, st, w, data, m, worm);
      PutLog(Apply(p, st, w, DataAndSignature(data, m)), ManifestKey(w), p.spell(m), worm);
  }

  lemma ApplySigned(p: Site, st: Store, w: Window, data: string, m: Manifest, worm: bool)
    requires LogSound(st, worm) && (worm ==> DataKey(w) !in st.objects)
    ensures WritesSound(Apply(p, st, w, DataAndSignature(data, m)), worm)
  {
    PutLog(st, DataKey(w), data, worm);
    PutLog(Put(st, DataKey(w), data), SignatureKey(w), p.sign(p.spell(m)), worm);
  }

  lemma ApplyLogSound(p: Site, cfg: Config, st: Store, w: Window, e: Effect, worm: bool)
    requires Checked(cfg, st, w, e) && LogSound(st, worm) && (worm ==> cfg.compliance)
    ensures LogSound(Apply(p, st, w, e), worm)
  {
    ApplyWrites(p, cfg, st, w, e, worm);
    ApplyOrder(p, cfg, st, w, e);
  }

  lemma ApplyOrder(p: Site, cfg: Config, st: Store, w: Window, e: Effect)
    requires Checked(cfg, st, w, e) && InOrder(st)
    ensures InOrder(Apply(p, st, w, e))
  {
    var st' := Apply(p, st, w, e);
    ApplyKeeps(p, cfg, st, w, e);
    forall v | SignatureKey(v) in st'.objects ensures DataKey(v) in st'.objects {
      if v != w {
        ApplyFrame(p, st, w, e, SignatureKey(v));
        ApplyFrame(p, st, w, e, DataKey(v));
      }
    }
    forall v | Stored(st', v) ensures SignatureKey(v) in st'.objects {
      if v != w { ApplyFrame(p, st, w, e, SignatureKey(v)); }
    }
  }

  /** One attempt, whatever the world answers and wherever it dies, keeps all of it. */
  lemma AttemptKeepsInv(p: Site, cfg: Config, st: Store, w: Window, env: Env, worm: bool)
    requires Inv(p, st, worm) && (worm ==> cfg.compliance) && Honest(p, env)
    ensures Inv(p, Tried(p, cfg, st, w, env), worm) && Keeps(st, Tried(p, cfg, st, w, env))
  {
    var e := Attempt(p, cfg, st, w, env).0;
    AttemptGuarded(p, cfg, st, w, env);
    ApplyKeeps(p, cfg, st, w, e);
    ApplyCommitted(p, cfg, st, w, e);
    ApplyChainSound(p, cfg, st, w, e);
    ApplyLogSound(p, cfg, st, w, e, worm);
  }
}
