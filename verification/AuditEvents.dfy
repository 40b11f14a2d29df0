/** One audit event per line: from a flat VictoriaLogs record to a canonical JSON line
    (`flatToAuditEvent`, `AuditEvent.MarshalJSON`), and the streaming pass that counts, hashes and
    compresses the lines of one window (`compressEvents`, `countingWriter`). */
module AuditEvents {
  import opened Text
  import opened CanonicalJson
  import opened Unflatten
  import PipePipeline

  // ----- the declared schema -----

  /** Declared fields that hold a string. */
  const SCALARS: set<string> := {
    "audit_policy_version", "cluster_audit_policy_version", "correlation_id", "event_id",
    "justification", "schema_version", "tenant", "time"
  }

  /** Declared fields that hold an object, with the names inside it. */
  const GROUPS: set<string> := {"action", "actor", "authorization", "source", "target"}

  function NamesIn(group: string): set<string> {
    if group == "action" then {"outcome", "verb"}
    else if group == "actor" then {"id", "type"}
    else if group == "authorization" then {"decision", "policy", "reason"}
    else if group == "source" then {"ip", "origin", "user_agent"}
    else if group == "target" then {"apiVersion", "cluster", "kind", "name", "namespace", "subresource"}
    else {}
  }

  /** VictoriaLogs' own fields, which are not part of the audit schema. */
  const INTERNAL: set<string> := {"_time", "_stream_id", "_msg"}

  const DECLARED: set<string> := SCALARS + GROUPS

  function Dotted(group: string, name: string): string { group + "." + name }

  /** knownFlatKeys */
  const KNOWN: set<string> := INTERNAL + SCALARS + set g, n | g in GROUPS && n in NamesIn(g) :: Dotted(g, n)

  const ZERO_TIME := "0001-01-01T00:00:00.000Z"

  /** What is not looked into here: time texts, the hash, the signature and the compressor.
      `flushed(text)` is what the compressor has sent on once it has been fed `text`. */
  datatype Platform = Platform(
    parseTime: string -> Option<string>,
    sha256: string -> string,
    sign: string -> string,
    gzip: string -> string,
    flushed: string -> string,
    hourText: int -> string)

  /** A streaming compressor only ever appends, and ends with the whole compressed text. */
  ghost predicate Streams(p: Platform) {
    p.flushed("") == "" &&
    (forall t, t' :: t <= t' ==> p.flushed(t) <= p.flushed(t')) &&
    forall t :: p.flushed(t) <= p.gzip(t)
  }

  /** A Go map of strings reads as "" where it has no entry. */
  function At(f: map<string, string>, k: string): string { if k in f then f[k] else "" }

  function TenantOrPlatform(tenant: string): string { if tenant == "" then "PLATFORM" else tenant }

  function EventTime(p: Platform, f: map<string, string>): Option<string> {
    if At(f, "time") != "" then p.parseTime(At(f, "time"))
    else if At(f, "_time") != "" then p.parseTime(At(f, "_time"))
    else Some(ZERO_TIME)
  }

  function ScalarOf(f: map<string, string>, time: string, k: string): string {
    if k == "tenant" then TenantOrPlatform(At(f, k))
    else if k == "time" then time
    else At(f, k)
  }

  function GroupOf(f: map<string, string>, g: string): Fields {
    map n | n in NamesIn(g) :: Str(At(f, Dotted(g, n)))
  }

  /** The declared fields of an event, as json.Marshal writes the struct. */
  function DeclaredFields(f: map<string, string>, time: string): Fields {
    map k | k in DECLARED :: if k in GROUPS then Obj(GroupOf(f, k)) else Str(ScalarOf(f, time, k))
  }

  /** AuditEvent.MarshalJSON: extra fields are merged in, in any order, and declared fields win. */
  method MergeExtra(base: Fields, extra: Fields) returns (m: Fields)
    ensures m == extra + base
  {
    m := base;
    var todo := extra.Keys;
    while todo != {}
      invariant todo <= extra.Keys
      invariant m.Keys == base.Keys + (extra.Keys - todo)
      invariant forall k :: k in m ==> m[k] == if k in base then base[k] else extra[k]
      decreases |todo|
    {
      var k :| k in todo;
      if k !in m { m := m[k := extra[k]]; }
      todo := todo - {k};
    }
  }

  // ----- which extra fields reach the output -----

  lemma FlatLookup(m: Fields, path: Path)
    requires Lookup(m, path).Some? && m[path[0]].Str?
    ensures path == [path[0]]
  {
    forall q: Path ensures Lookup(map[], q) == None { LookupEmpty(q); }
  }

  /** Every leaf of the declared fields is a key that the converter knows. */
  lemma DeclaredLeavesKnown(f: map<string, string>, time: string, path: Path)
    requires Lookup(DeclaredFields(f, time), path).Some?
    ensures Join(path, '.') in KNOWN
  {
    var g := path[0];
    if g in GROUPS {
      var rest := path[1..];
      FlatLookup(GroupOf(f, g), rest);
      assert path == [g, rest[0]] && path[1..] == [rest[0]];
      assert Join(path, '.') == Dotted(g, rest[0]);
    } else {
      FlatLookup(DeclaredFields(f, time), path);
    }
  }

  lemma LookupMerged(extra: Fields, base: Fields, path: Path)
    requires path != []
    ensures Lookup(extra + base, path) == if path[0] in base then Lookup(base, path) else Lookup(extra, path)
  {}

  /** An unknown field reaches the printed event exactly when its first segment is not the name of a
      declared field and no later key of the walk clashes with its path. */
  lemma ExtraSurvives(f: map<string, string>, order: seq<string>, time: string, i: nat)
    requires Walk(order, f.Keys - KNOWN) && i < |order|
    ensures order[i] in f
    ensures Lookup(SetAllOf(f, order) + DeclaredFields(f, time), PathOf(order[i])) == Some(f[order[i]])
            <==> PathOf(order[i])[0] !in DECLARED && Unharmed(order, i)
  {
    var extra, base, k := SetAllOf(f, order), DeclaredFields(f, time), order[i];
    assert k in Elements(order);
    assert base.Keys == DECLARED;
    LookupMerged(extra, base, PathOf(k));
    LastWriteWins(f, order, i);
    if PathOf(k)[0] in DECLARED && Lookup(base, PathOf(k)).Some? {
      DeclaredLeavesKnown(f, time, PathOf(k));
      JoinSplit(k, '.');
    }
  }

  /** So with prefix-free unknown keys only the first segment matters. */
  lemma PrefixFreeSurvives(f: map<string, string>, order: seq<string>, time: string, i: nat)
    requires Walk(order, f.Keys - KNOWN) && PrefixFree(f.Keys - KNOWN) && i < |order|
    ensures order[i] in f
    ensures Lookup(SetAllOf(f, order) + DeclaredFields(f, time), PathOf(order[i])) == Some(f[order[i]])
            <==> PathOf(order[i])[0] !in DECLARED
  {
    ExtraSurvives(f, order, time, i);
    forall j | i < j < |order| ensures !Clash(PathOf(order[i]), PathOf(order[j])) {
      assert order[i] in Elements(order) && order[j] in Elements(order);
    }
  }

  lemma DotFree(g: string, n: string)
    requires g in GROUPS && n in NamesIn(g)
    ensures PathOf(Dotted(g, n)) == [g, n]
  {
    assert '.' !in g && '.' !in n;
    assert [g, n][1..] == [n];
    assert Join([g, n], '.') == Dotted(g, n);
    SplitJoin([g, n], '.');
  }

  /** Every declared field of the record reaches the printed event under its own path, whatever the
      unknown fields are. */
  lemma DeclaredSurvives(f: map<string, string>, order: seq<string>, time: string, g: string, n: string)
    requires Elements(order) == f.Keys - KNOWN && g in GROUPS && n in NamesIn(g)
    ensures Lookup(SetAllOf(f, order) + DeclaredFields(f, time), PathOf(Dotted(g, n))) == Some(At(f, Dotted(g, n)))
  {
    DotFree(g, n);
    LookupMerged(SetAllOf(f, order), DeclaredFields(f, time), [g, n]);
    assert [g, n][1..] == [n];
  }

  // ----- the scalar fields -----

  /** Scalar fields whose value is the record's. */
  const COPIED: set<string> := {
    "audit_policy_version", "cluster_audit_policy_version", "correlation_id", "event_id",
    "justification", "schema_version"
  }

  lemma ScalarLeaf(m: Fields, k: string)
    ensures Lookup(m, [k]) == if k in m && m[k].Str? then Some(m[k].s) else None
  {}

  lemma DeclaredScalars(f: map<string, string>, time: string, k: string)
    ensures k in COPIED ==> Lookup(DeclaredFields(f, time), [k]) == Some(At(f, k))
  {
    ScalarLeaf(DeclaredFields(f, time), k);
  }

  lemma DeclaredTenant(f: map<string, string>, time: string)
    ensures Lookup(DeclaredFields(f, time), ["tenant"]) == Some(if At(f, "tenant") == "" then "PLATFORM" else At(f, "tenant"))
  {
    ScalarLeaf(DeclaredFields(f, time), "tenant");
  }

  lemma DeclaredTime(f: map<string, string>, time: string)
    ensures Lookup(DeclaredFields(f, time), ["time"]) == Some(time)
  {
    ScalarLeaf(DeclaredFields(f, time), "time");
  }

  lemma BaseWins(extra: Fields, base: Fields, k: string)
    ensures Lookup(base, [k]).Some? ==> Lookup(extra + base, [k]) == Lookup(base, [k])
  {
    ScalarLeaf(base, k);
    ScalarLeaf(extra + base, k);
  }

  /** The scalar fields of the printed event: the record's own value, except that a record without a
      tenant is the platform's, and that the time has been read. */
  lemma ScalarsSurvive(f: map<string, string>, order: seq<string>, time: string, k: string)
    requires Elements(order) == f.Keys - KNOWN
    ensures var m := SetAllOf(f, order) + DeclaredFields(f, time);
      (k in COPIED ==> Lookup(m, [k]) == Some(At(f, k))) &&
      Lookup(m, ["tenant"]) == Some(if At(f, "tenant") == "" then "PLATFORM" else At(f, "tenant")) &&
      Lookup(m, ["time"]) == Some(time)
  {
    var extra, base := SetAllOf(f, order), DeclaredFields(f, time);
    DeclaredScalars(f, time, k);
    DeclaredTenant(f, time);
    DeclaredTime(f, time);
    BaseWins(extra, base, k);
    BaseWins(extra, base, "tenant");
    BaseWins(extra, base, "time");
  }

  /** VictoriaLogs' own fields are not printed, and no leaf is printed that is neither a declared
      field nor a key of the record with this value. */
  lemma NothingInvented(f: map<string, string>, order: seq<string>, time: string, path: Path)
    requires Elements(order) == f.Keys - KNOWN && Lookup(SetAllOf(f, order) + DeclaredFields(f, time), path).Some?
    ensures Lookup(DeclaredFields(f, time), path).Some? ||
      (Join(path, '.') in f.Keys - KNOWN &&
       Lookup(SetAllOf(f, order) + DeclaredFields(f, time), path) == Some(f[Join(path, '.')]))
  {
    LookupMerged(SetAllOf(f, order), DeclaredFields(f, time), path);
    if path[0] !in DeclaredFields(f, time) {
      var i := LeafFromKey(f, order, path);
      JoinSplit(order[i], '.');
      assert order[i] in Elements(order);
    }
  }

  lemma NoDot(k: string)
    requires '.' !in k
    ensures PathOf(k) == [k]
  {
    SplitJoin([k], '.');
    assert Join([k], '.') == k;
  }

  lemma PlainScalars(k: string)
    requires k in SCALARS
    ensures '.' !in k && k !in GROUPS
  {}

  /** The known keys are VictoriaLogs' own and exactly the dotted paths of the declared fields. */
  lemma KnownExactly(f: map<string, string>, time: string, k: string)
    ensures k in KNOWN <==>
      k == "_time" || k == "_stream_id" || k == "_msg" || Lookup(DeclaredFields(f, time), PathOf(k)).Some?
  {
    var base := DeclaredFields(f, time);
    if Lookup(base, PathOf(k)).Some? {
      DeclaredLeavesKnown(f, time, PathOf(k));
      JoinSplit(k, '.');
    }
    if k in SCALARS {
      PlainScalars(k);
      NoDot(k);
      ScalarLeaf(base, k);
    }
    if g, n :| g in GROUPS && n in NamesIn(g) && k == Dotted(g, n) {
      DotFree(g, n);
      assert [g, n][1..] == [n];
      ScalarLeaf(GroupOf(f, g), n);
    }
  }

  // ----- the schema, name by name -----

  predicate Declares(g: string, n: string, k: string) { g in GROUPS && n in NamesIn(g) && k == Dotted(g, n) }

  lemma ActionSchema()
    ensures Declares("action", "outcome", "action.outcome") && Declares("action", "verb", "action.verb")
    ensures Declares("actor", "id", "actor.id") && Declares("actor", "type", "actor.type")
  {}

  lemma AuthorizationSchema()
    ensures Declares("authorization", "decision", "authorization.decision")
    ensures Declares("authorization", "policy", "authorization.policy")
    ensures Declares("authorization", "reason", "authorization.reason")
  {}

  lemma SourceSchema()
    ensures Declares("source", "ip", "source.ip") && Declares("source", "origin", "source.origin")
    ensures Declares("source", "user_agent", "source.user_agent")
  {}

  lemma TargetSchema()
    ensures Declares("target", "apiVersion", "target.apiVersion") && Declares("target", "cluster", "target.cluster")
    ensures Declares("target", "kind", "target.kind") && Declares("target", "name", "target.name")
    ensures Declares("target", "namespace", "target.namespace") && Declares("target", "subresource", "target.subresource")
  {}

  /** The declared fields that hold objects, and what they hold. */
  const DOTTED: set<string> := {
    "action.outcome", "action.verb", "actor.id", "actor.type",
    "authorization.decision", "authorization.policy", "authorization.reason",
    "source.ip", "source.origin", "source.user_agent",
    "target.apiVersion", "target.cluster", "target.kind", "target.name", "target.namespace", "target.subresource"
  }

  lemma DottedDeclared(k: string) returns (g: string, n: string)
    requires k in DOTTED
    ensures Declares(g, n, k)
  {
    ActionSchema();
    AuthorizationSchema();
    SourceSchema();
    TargetSchema();
    g, n :| Declares(g, n, k);
  }

  /** Each of them is printed under its own path, with the record's value. */
  lemma SchemaSurvives(f: map<string, string>, order: seq<string>, time: string, k: string)
    requires Elements(order) == f.Keys - KNOWN && k in DOTTED
    ensures Lookup(SetAllOf(f, order) + DeclaredFields(f, time), PathOf(k)) == Some(At(f, k))
  {
    var g, n := DottedDeclared(k);
    DeclaredSurvives(f, order, time, g, n);
  }

  // ----- one line in, one event out -----

  /** unicode.IsSpace */
  predicate IsGoSpace(c: char) {
    var n := c as int;
    9 <= n <= 13 || n == 32 || n == 0x85 || n == 0xA0 || n == 0x1680 || 0x2000 <= n <= 0x200A ||
    n == 0x2028 || n == 0x2029 || n == 0x202F || n == 0x205F || n == 0x3000
  }

  /** strings.TrimSpace */
  function Trim(s: string): string
    decreases |s|
  {
    if s == "" then ""
    else if IsGoSpace(s[0]) then Trim(s[1..])
    else if IsGoSpace(s[|s| - 1]) then Trim(s[..|s| - 1])
    else s
  }

  /** Trimming takes white space off both ends, all of it, and nothing else. */
  lemma {:induction false} TrimMeans(s: string) returns (a: string, b: string)
    ensures s == a + Trim(s) + b
    ensures forall c :: c in a || c in b ==> IsGoSpace(c)
    ensures Trim(s) != "" ==> !IsGoSpace(Trim(s)[0]) && !IsGoSpace(Trim(s)[|Trim(s)| - 1])
    decreases |s|
  {
    a, b := "", "";
    if s != "" && IsGoSpace(s[0]) {
      a, b := TrimMeans(s[1..]);
      Longer([s[0]], a, Trim(s[1..]), b);
      a := [s[0]] + a;
      assert s == [s[0]] + s[1..];
    } else if s != "" && IsGoSpace(s[|s| - 1]) {
      var n := |s| - 1;
      a, b := TrimMeans(s[..n]);
      b := b + [s[n]];
      assert s == s[..n] + [s[n]];
    }
  }

  lemma Longer(x: string, a: string, t: string, b: string)
    ensures x + (a + t + b) == x + a + t + b
  {}

  /** json.Unmarshal into a map of strings; null leaves the zero value. */
  function AsFlat(v: Json): Option<map<string, string>> {
    match v
    case Null => Some(map[])
    case Obj(m) =>
      if forall k :: k in m ==> m[k].Str? || m[k].Null?
      then Some(map k | k in m :: if m[k].Str? then m[k].s else "")
      else None
    case _ => None
  }

  function FlatOf(line: string): Option<map<string, string>> {
    match Unmarshal(line)
    case None => None
    case Some(v) => AsFlat(v)
  }

  /** A line is read as a record exactly when it is null, or an object whose members are strings or
      null; a string is kept as it is, null reads as the empty string. */
  lemma RecordOf(line: string, v: Json)
    requires Unmarshal(line) == Some(v)
    ensures FlatOf(line).Some? <==> v.Null? || (v.Obj? && forall k :: k in v.fields ==> v.fields[k].Str? || v.fields[k].Null?)
    ensures FlatOf(line).Some? && v.Obj? ==>
      FlatOf(line).value.Keys == v.fields.Keys &&
      forall k :: k in v.fields ==> FlatOf(line).value[k] == if v.fields[k].Str? then v.fields[k].s else ""
  {}

  lemma RecordBack(line: string, m: Fields, f: map<string, string>)
    requires Unmarshal(line) == Some(Obj(m)) && m.Keys == f.Keys && forall k :: k in f ==> m[k] == Str(f[k])
    ensures FlatOf(line) == Some(f)
  {
    RecordOf(line, Obj(m));
    assert FlatOf(line).value == f;
  }

  function Record(f: map<string, string>): Json { Obj(map k | k in f :: Str(f[k])) }

  /** Every record can be written as a line that reads back as this record. */
  lemma RecordRoundTrip(f: map<string, string>)
    ensures FlatOf(Marshal(Record(f))) == Some(f)
  {
    CanonicalRoundTrip(Record(f));
    RecordBack(Marshal(Record(f)), Record(f).fields, f);
  }

  /** `v` is an event that the record `f` may be converted to: the walk over the unknown keys may
      take any order. */
  ghost predicate EventOf(p: Platform, f: map<string, string>, v: Json) {
    EventTime(p, f).Some? &&
    exists order :: Walk(order, f.Keys - KNOWN) &&
      v == Obj(SetAllOf(f, order) + DeclaredFields(f, EventTime(p, f).value))
  }

  /** What an event of a record holds in its scalar fields. */
  lemma EventScalars(p: Platform, f: map<string, string>, v: Json)
    requires EventOf(p, f, v)
    ensures v.Obj? && forall k :: k in COPIED ==> Lookup(v.fields, [k]) == Some(At(f, k))
    ensures Lookup(v.fields, ["tenant"]) == Some(if At(f, "tenant") == "" then "PLATFORM" else At(f, "tenant"))
    ensures Lookup(v.fields, ["time"]) == EventTime(p, f)
  {
    var order :| Walk(order, f.Keys - KNOWN) && v == Obj(SetAllOf(f, order) + DeclaredFields(f, EventTime(p, f).value));
    forall k | k in COPIED ensures Lookup(v.fields, [k]) == Some(At(f, k)) {
      ScalarsSurvive(f, order, EventTime(p, f).value, k);
    }
    ScalarsSurvive(f, order, EventTime(p, f).value, "tenant");
  }

  /** The time is read from the application's field, or else from VictoriaLogs' own; a record without
      either has the zero time; a time that cannot be read fails. */
  lemma TimeRead(p: Platform, f: map<string, string>)
    ensures At(f, "time") != "" ==> EventTime(p, f) == p.parseTime(f["time"])
    ensures At(f, "time") == "" && At(f, "_time") != "" ==> EventTime(p, f) == p.parseTime(f["_time"])
    ensures At(f, "time") == At(f, "_time") == "" ==> EventTime(p, f) == Some("0001-01-01T00:00:00.000Z")
  {}

  /** flatToAuditEvent followed by MarshalJSON. */
  method FlatToEvent(p: Platform, f: map<string, string>) returns (v: Option<Json>)
    ensures v.Some? <==> EventTime(p, f).Some?
    ensures v.Some? ==> EventOf(p, f, v.value)
  {
    match EventTime(p, f)
    case None => v := None;
    case Some(time) =>
      ghost var order;
      var extra;
      extra, order := UnflattenExtra(f, KNOWN);
      var m := MergeExtra(DeclaredFields(f, time), extra);
      v := Some(Obj(m));
  }

  predicate Blank(line: string) { Trim(line) == "" }

  /** `v` is an event that the line may become. */
  ghost predicate Becomes(p: Platform, line: string, v: Json) {
    FlatOf(Trim(line)).Some? && EventOf(p, FlatOf(Trim(line)).value, v)
  }

  /** One event for each line that is not blank, in the order of the lines. */
  ghost predicate ConvertsBy(blank: string -> bool, becomes: (string, Json) -> bool, lines: seq<string>, events: seq<Json>) {
    if lines == [] then events == []
    else
      var line, before := lines[|lines| - 1], lines[..|lines| - 1];
      if blank(line) then ConvertsBy(blank, becomes, before, events)
      else events != [] && ConvertsBy(blank, becomes, before, events[..|events| - 1]) && becomes(line, events[|events| - 1])
  }

  /** The events that a window's lines stand for. */
  ghost predicate Converts(p: Platform, lines: seq<string>, events: seq<Json>) {
    ConvertsBy(Blank, (line, v) => Becomes(p, line, v), lines, events)
  }

  function NonBlank(lines: seq<string>): nat {
    if lines == [] then 0
    else NonBlank(lines[..|lines| - 1]) + if Blank(lines[|lines| - 1]) then 0 else 1
  }

  lemma {:induction false} CountBy(becomes: (string, Json) -> bool, lines: seq<string>, events: seq<Json>)
    requires ConvertsBy(Blank, becomes, lines, events)
    ensures |events| == NonBlank(lines)
  {
    if lines != [] {
      CountBy(becomes, lines[..|lines| - 1], if Blank(lines[|lines| - 1]) then events else events[..|events| - 1]);
    }
  }

  lemma ConvertsCount(p: Platform, lines: seq<string>, events: seq<Json>)
    requires Converts(p, lines, events)
    ensures |events| == NonBlank(lines)
  {
    CountBy((line, v) => Becomes(p, line, v), lines, events);
  }

  /** The uncompressed output: canonical JSON, one event a line. */
  ghost function Lines(events: seq<Json>): string {
    if events == [] then ""
    else Lines(events[..|events| - 1]) + Marshal(events[|events| - 1]) + "\n"
  }

  function Newlines(s: string): nat {
    if s == "" then 0 else Newlines(s[..|s| - 1]) + if s[|s| - 1] == '\n' then 1 else 0
  }

  lemma {:induction false} NewlinesConcat(a: string, b: string)
    ensures Newlines(a + b) == Newlines(a) + Newlines(b)
  {
    if b == "" {
      assert a + b == a;
    } else {
      assert (a + b)[..|a + b| - 1] == a + b[..|b| - 1];
      NewlinesConcat(a, b[..|b| - 1]);
    }
  }

  lemma {:induction false} NewlinesNone(s: string)
    requires '\n' !in s
    ensures Newlines(s) == 0
  {
    if s != "" { NewlinesNone(s[..|s| - 1]); }
  }

  /** The output has exactly as many newline characters as events. */
  lemma {:induction false} NewlinesAreEvents(events: seq<Json>)
    ensures Newlines(Lines(events)) == |events|
  {
    if events != [] {
      var init, last := events[..|events| - 1], Marshal(events[|events| - 1]);
      NewlinesAreEvents(init);
      CanonicalRoundTrip(events[|events| - 1]);
      NewlinesNone(last);
      NewlinesConcat(Lines(init), last);
      NewlinesConcat(Lines(init) + last, "\n");
      assert Newlines("\n") == Newlines("") + 1;
    }
  }

  ghost function Texts(events: seq<Json>): seq<string> { seq(|events|, i requires 0 <= i < |events| => Marshal(events[i])) }

  lemma LinesSplit(m: string, before: string, parts: seq<string>)
    requires before == Join(parts + [""], '\n')
    ensures before + m + "\n" == Join(parts + [m] + [""], '\n')
  {
    JoinSnoc(parts, "", '\n');
    JoinSnoc(parts, m, '\n');
    JoinSnoc(parts + [m], "", '\n');
    if parts != [] {
      var j := Join(parts, '\n');
      assert j + "\n" + "" == j + "\n";
      assert j + "\n" + m + "\n" + "" == j + "\n" + m + "\n";
    }
  }

  ghost function OneALine(texts: seq<string>): string {
    if texts == [] then "" else OneALine(texts[..|texts| - 1]) + texts[|texts| - 1] + "\n"
  }

  lemma {:induction false} LinesTexts(events: seq<Json>)
    ensures Lines(events) == OneALine(Texts(events))
  {
    if events != [] {
      var n := |events| - 1;
      LinesTexts(events[..n]);
      assert Texts(events)[..n] == Texts(events[..n]);
    }
  }

  lemma {:induction false} LinesJoin(texts: seq<string>)
    ensures OneALine(texts) == Join(texts + [""], '\n')
  {
    if texts == [] {
      assert texts + [""] == [""];
    } else {
      var n := |texts| - 1;
      LinesJoin(texts[..n]);
      LinesSplit(texts[n], OneALine(texts[..n]), texts[..n]);
      assert texts == texts[..n] + [texts[n]];
    }
  }

  /** Reading the output line by line gives the events back, in their order. */
  lemma LinesReadBack(events: seq<Json>)
    ensures var ls := Split(Lines(events), '\n');
      |ls| == |events| + 1 && ls[|events|] == "" &&
      forall i :: 0 <= i < |events| ==> ls[i] == Marshal(events[i]) && Unmarshal(ls[i]) == Some(events[i])
  {
    var parts := Texts(events) + [""];
    forall i | 0 <= i < |parts| ensures '\n' !in parts[i] { if i < |events| { CanonicalRoundTrip(events[i]); } }
    LinesTexts(events);
    LinesJoin(Texts(events));
    SplitJoin(parts, '\n');
    forall i | 0 <= i < |events| ensures Unmarshal(parts[i]) == Some(events[i]) { CanonicalRoundTrip(events[i]); }
  }

  function PolicyOf(v: Json, name: string): string {
    if v.Obj? && name in v.fields && v.fields[name].Str? then v.fields[name].s else ""
  }

  /** The distinct non-empty values of a policy field. */
  function Policies(events: seq<Json>, name: string): set<string> {
    set i | 0 <= i < |events| && PolicyOf(events[i], name) != "" :: PolicyOf(events[i], name)
  }

  /** countingWriter over io.MultiWriter(pipe, hash): the pipe comes first, and may refuse bytes
      past some point when its reader is gone. */
  class CountingWriter {
    var n: nat
    var sent: string
    var hashed: string
    ghost var pieces: seq<string>
    const room: Option<nat>

    ghost predicate Valid()
      reads this
    {
      n == |sent| && hashed <= sent && sent == PipePipeline.Stream(pieces)
    }

    constructor (room: Option<nat>)
      ensures Valid() && sent == "" && hashed == "" && this.room == room
    {
      n, sent, hashed, pieces := 0, "", "", [];
      this.room := room;
    }

    method Write(b: string) returns (ok: bool)
      requires Valid() && hashed == sent
      modifies this
      ensures Valid() && old(sent) <= sent
      ensures ok ==> sent == hashed == old(sent) + b
      ensures room.None? ==> ok
    {
      var k := if room.Some? && room.value < n + |b| then (if room.value < n then 0 else room.value - n) else |b|;
      PipePipeline.StreamSnoc(pieces, b[..k]);
      sent, pieces := sent + b[..k], pieces + [b[..k]];
      n := n + k;
      ok := k == |b|;
      if ok { hashed := hashed + b; }
    }
  }

  /** dataStats */
  datatype Stats = Stats(
    eventCount: nat, sizeBytes: nat, sha256hex: string,
    auditPolicies: seq<string>, clusterPolicies: seq<string>)

  lemma PoliciesSnoc(events: seq<Json>, v: Json, name: string)
    ensures Policies(events + [v], name) ==
            Policies(events, name) + if PolicyOf(v, name) == "" then {} else {PolicyOf(v, name)}
  {
    var more := events + [v];
    forall x | x in Policies(events, name) ensures x in Policies(more, name) {
      var i :| 0 <= i < |events| && PolicyOf(events[i], name) == x && x != "";
      assert more[i] == events[i];
    }
    if PolicyOf(v, name) != "" { assert PolicyOf(more[|events|], name) in Policies(more, name); }
  }

  lemma SnocBy(blank: string -> bool, becomes: (string, Json) -> bool, lines: seq<string>, events: seq<Json>, i: nat, v: Json)
    requires i < |lines| && ConvertsBy(blank, becomes, lines[..i], events)
    ensures blank(lines[i]) ==> ConvertsBy(blank, becomes, lines[..i + 1], events)
    ensures !blank(lines[i]) && becomes(lines[i], v) ==> ConvertsBy(blank, becomes, lines[..i + 1], events + [v])
  {
    assert lines[..i + 1][..i] == lines[..i];
    assert (events + [v])[..|events|] == events;
  }

  lemma ConvertsSnoc(p: Platform, lines: seq<string>, events: seq<Json>, i: nat, v: Json)
    requires i < |lines| && Converts(p, lines[..i], events)
    ensures Blank(lines[i]) ==> Converts(p, lines[..i + 1], events)
    ensures !Blank(lines[i]) && Becomes(p, lines[i], v) ==> Converts(p, lines[..i + 1], events + [v])
  {
    SnocBy(Blank, (line, w) => Becomes(p, line, w), lines, events, i, v);
  }

  lemma LinesSnoc(events: seq<Json>, v: Json)
    ensures Lines(events + [v]) == Lines(events) + Marshal(v) + "\n"
  {
    assert (events + [v])[..|events|] == events;
  }

  /** The compressor sends what it has ready, in as many writes as it likes. */
  method SendPieces(cw: CountingWriter, bytes: string) returns (ok: bool)
    requires cw.Valid() && cw.hashed == cw.sent
    modifies cw
    ensures cw.Valid()
    ensures ok ==> cw.sent == cw.hashed == old(cw.sent) + bytes
    ensures cw.room.None? ==> ok
  {
    ok := true;
    var done := 0;
    assert cw.sent + bytes[..0] == cw.sent;
    while done < |bytes|
      invariant 0 <= done <= |bytes| && ok && cw.Valid()
      invariant cw.sent == cw.hashed == old(cw.sent) + bytes[..done]
    {
      var n :| 1 <= n <= |bytes| - done;
      ok := cw.Write(bytes[done..done + n]);
      if !ok { return; }
      assert bytes[..done + n] == bytes[..done] + bytes[done..done + n];
      done := done + n;
    }
    assert bytes[..done] == bytes;
  }

  /** Feeds `u` to the compressor, which passes on what it then has ready. */
  method Feed(p: Platform, cw: CountingWriter, text: string, u: string) returns (ok: bool)
    requires Streams(p) && cw.Valid() && cw.sent == cw.hashed == p.flushed(text)
    modifies cw
    ensures cw.Valid()
    ensures ok ==> cw.sent == cw.hashed == p.flushed(text + u)
    ensures cw.room.None? ==> ok
  {
    assert text <= text + u;
    ok := SendPieces(cw, p.flushed(text + u)[|p.flushed(text)|..]);
  }

  /** Closing the compressor passes on the rest of the compressed text. */
  method CloseGzip(p: Platform, cw: CountingWriter, text: string) returns (ok: bool)
    requires Streams(p) && cw.Valid() && cw.sent == cw.hashed == p.flushed(text)
    modifies cw
    ensures cw.Valid()
    ensures ok ==> cw.sent == cw.hashed == p.gzip(text)
    ensures cw.room.None? ==> ok
  {
    ok := SendPieces(cw, p.gzip(text)[|p.flushed(text)|..]);
  }

  /** A line that is blank, or a flat record with a readable time. */
  predicate Readable(p: Platform, line: string) {
    Trim(line) == "" || (FlatOf(Trim(line)).Some? && EventTime(p, FlatOf(Trim(line)).value).Some?)
  }

  ghost predicate AllReadable(p: Platform, lines: seq<string>, n: nat) {
    n <= |lines| && forall j :: 0 <= j < n ==> Readable(p, lines[j])
  }

  method ConvertLine(p: Platform, line: string) returns (v: Option<Json>)
    ensures v.Some? <==> FlatOf(line).Some? && EventTime(p, FlatOf(line).value).Some?
    ensures v.Some? ==> FlatOf(line).Some? && EventOf(p, FlatOf(line).value, v.value)
  {
    match FlatOf(line)
    case None => v := None;
    case Some(f) => v := FlatToEvent(p, f);
  }

  method WriteLine(p: Platform, cw: CountingWriter, text: string, canonical: string) returns (ok: bool)
    requires Streams(p) && cw.Valid() && cw.sent == cw.hashed == p.flushed(text)
    modifies cw
    ensures cw.Valid()
    ensures ok ==> cw.sent == cw.hashed == p.flushed(text + canonical + "\n")
    ensures cw.room.None? ==> ok
  {
    ok := Feed(p, cw, text, canonical);
    if ok { ok := Feed(p, cw, text + canonical, "\n"); }
  }

  const AUDIT := "audit_policy_version"
  const CLUSTER := "cluster_audit_policy_version"

  /** What the loop of compressEvents has gathered from the first `i` lines. */
  ghost predicate Gathered(p: Platform, lines: seq<string>, i: nat, events: seq<Json>,
                           text: string, audit: set<string>, cluster: set<string>)
  {
    i <= |lines| && Converts(p, lines[..i], events) && text == Lines(events) &&
    audit == Policies(events, AUDIT) && cluster == Policies(events, CLUSTER)
  }

  lemma GatherEvent(p: Platform, lines: seq<string>, i: nat, events: seq<Json>,
                    text: string, audit: set<string>, cluster: set<string>, v: Json)
    requires i < |lines| && Gathered(p, lines, i, events, text, audit, cluster)
    requires !Blank(lines[i]) && Becomes(p, lines[i], v)
    ensures Gathered(p, lines, i + 1, events + [v], text + Marshal(v) + "\n",
                     AddPolicy(audit, v, AUDIT), AddPolicy(cluster, v, CLUSTER))
  {
    ConvertsSnoc(p, lines, events, i, v);
    LinesSnoc(events, v);
    PoliciesSnoc(events, v, AUDIT);
    PoliciesSnoc(events, v, CLUSTER);
  }

  lemma ReadableNext(p: Platform, lines: seq<string>, i: nat, ok: bool)
    requires i < |lines| && AllReadable(p, lines, i) && (ok <==> Readable(p, lines[i]))
    ensures AllReadable(p, lines, i + 1) <==> ok
    ensures !ok ==> !AllReadable(p, lines, |lines|)
  {}

  /** What the loop of compressEvents keeps: the text it has fed to the compressor, the count, and the
      two policy sets. */
  datatype Sums = Sums(text: string, count: nat, audit: set<string>, cluster: set<string>)

  ghost function Plus(t: Sums, v: Json): Sums {
    Sums(t.text + Marshal(v) + "\n", t.count + 1, AddPolicy(t.audit, v, AUDIT), AddPolicy(t.cluster, v, CLUSTER))
  }

  method ReadLine(p: Platform, line: string) returns (e: Option<Json>)
    requires !Blank(line)
    ensures e.Some? <==> Readable(p, line)
    ensures e.Some? ==> Becomes(p, line, e.value)
  {
    e := ConvertLine(p, Trim(line));
  }

  /** Prints one event, feeds it to the compressor, and adds it up. */
  method AddEvent(p: Platform, t: Sums, v: Json, cw: CountingWriter) returns (ok: bool, r: Sums)
    requires Streams(p) && cw.Valid() && cw.sent == cw.hashed == p.flushed(t.text)
    modifies cw
    ensures cw.Valid() && r == Plus(t, v)
    ensures ok ==> cw.sent == cw.hashed == p.flushed(r.text)
    ensures cw.room.None? ==> ok
  {
    var canonical := MarshalSorted(v);
    ok := WriteLine(p, cw, t.text, canonical);
    r := Sums(t.text + canonical + "\n", t.count + 1, AddPolicy(t.audit, v, AUDIT), AddPolicy(t.cluster, v, CLUSTER));
  }

  /** One turn of the loop. A line that is not blank becomes the event `v`. */
  method ScanLine(p: Platform, line: string, t: Sums, cw: CountingWriter) returns (ok: bool, r: Sums, ghost v: Json)
    requires Streams(p) && cw.Valid() && cw.sent == cw.hashed == p.flushed(t.text)
    modifies cw
    ensures cw.Valid()
    ensures ok ==> Readable(p, line) && cw.sent == cw.hashed == p.flushed(r.text)
    ensures ok ==> if Blank(line) then r == t else Becomes(p, line, v) && r == Plus(t, v)
    ensures cw.room.None? && Readable(p, line) ==> ok
  {
    r, v := t, Null;
    if Blank(line) { return true, r, v; }
    var e := ReadLine(p, line);
    if e.None? { return false, r, v; }
    v := e.value;
    ok, r := AddEvent(p, t, e.value, cw);
  }

  ghost predicate Summed(p: Platform, lines: seq<string>, i: nat, events: seq<Json>, t: Sums) {
    Gathered(p, lines, i, events, t.text, t.audit, t.cluster) && t.count == |events| && AllReadable(p, lines, i)
  }

  lemma SumNext(p: Platform, lines: seq<string>, i: nat, events: seq<Json>, t: Sums, v: Json)
    requires i < |lines| && Summed(p, lines, i, events, t) && Readable(p, lines[i])
    ensures Blank(lines[i]) ==> Summed(p, lines, i + 1, events, t)
    ensures !Blank(lines[i]) && Becomes(p, lines[i], v) ==> Summed(p, lines, i + 1, events + [v], Plus(t, v))
  {
    ReadableNext(p, lines, i, true);
    ConvertsSnoc(p, lines, events, i, v);
    if !Blank(lines[i]) && Becomes(p, lines[i], v) {
      GatherEvent(p, lines, i, events, t.text, t.audit, t.cluster, v);
    }
  }

  /** The loop of compressEvents over the scanned lines. */
  method GatherLines(p: Platform, lines: seq<string>, cw: CountingWriter) returns (ok: bool, t: Sums, ghost events: seq<Json>)
    requires Streams(p) && cw.Valid() && cw.sent == ""
    modifies cw
    ensures cw.Valid()
    ensures ok ==> Summed(p, lines, |lines|, events, t) && cw.sent == cw.hashed == p.flushed(t.text)
    ensures cw.room.None? && AllReadable(p, lines, |lines|) ==> ok
  {
    ok, t, events := true, Sums("", 0, {}, {}), [];
    var i := 0;
    while i < |lines|
      invariant 0 <= i <= |lines| && cw.Valid() && ok
      invariant Summed(p, lines, i, events, t) && cw.sent == cw.hashed == p.flushed(t.text)
    {
      ghost var v, before := Null, t;
      ok, t, v := ScanLine(p, lines[i], t, cw);
      if !ok { return; }
      SumNext(p, lines, i, events, before, v);
      events := if Blank(lines[i]) then events else events + [v];
      i := i + 1;
    }
  }

  /** What the record of a line has under `name`. */
  function ValueIn(line: string, name: string): string {
    if FlatOf(Trim(line)).Some? then At(FlatOf(Trim(line)).value, name) else ""
  }

  /** The list holds the distinct non-empty values under `name` among the records of the lines, in
      ascending order. */
  ghost predicate PoliciesFrom(lines: seq<string>, name: string, list: seq<string>) {
    Ascending(list) &&
    (forall i, j :: 0 <= i < j < |list| ==> list[i] != list[j]) &&
    forall x :: x in list <==> x != "" && exists i :: 0 <= i < |lines| && !Blank(lines[i]) && ValueIn(lines[i], name) == x
  }

  lemma PolicyOfRecord(p: Platform, f: map<string, string>, v: Json, name: string)
    requires EventOf(p, f, v) && name in {AUDIT, CLUSTER}
    ensures PolicyOf(v, name) == At(f, name)
  {
    EventScalars(p, f, v);
    ScalarLeaf(v.fields, name);
  }

  lemma PoliciesPlus(before: seq<Json>, v: Json, name: string, x: string)
    ensures x in Policies(before + [v], name) <==> x in Policies(before, name) || (x != "" && PolicyOf(v, name) == x)
  {
    PoliciesSnoc(before, v, name);
  }

  lemma {:induction false} CollectedBy(blank: string -> bool, becomes: (string, Json) -> bool, value: string -> string,
                                       name: string, lines: seq<string>, events: seq<Json>, x: string)
    requires ConvertsBy(blank, becomes, lines, events)
    requires forall line, v :: becomes(line, v) ==> PolicyOf(v, name) == value(line)
    ensures x in Policies(events, name) <==>
      x != "" && exists i :: 0 <= i < |lines| && !blank(lines[i]) && value(lines[i]) == x
  {
    if lines != [] {
      var n, init := |lines| - 1, lines[..|lines| - 1];
      assert forall i :: 0 <= i < n ==> init[i] == lines[i];
      if blank(lines[n]) {
        CollectedBy(blank, becomes, value, name, init, events, x);
      } else {
        var m := |events| - 1;
        CollectedBy(blank, becomes, value, name, init, events[..m], x);
        PoliciesPlus(events[..m], events[m], name, x);
        assert events == events[..m] + [events[m]];
      }
    }
  }

  lemma PoliciesOfLines(p: Platform, lines: seq<string>, events: seq<Json>, name: string, x: string)
    requires Converts(p, lines, events) && name in {AUDIT, CLUSTER}
    ensures x in Policies(events, name) <==>
      x != "" && exists i :: 0 <= i < |lines| && !Blank(lines[i]) && ValueIn(lines[i], name) == x
  {
    var becomes := (line, v) => Becomes(p, line, v);
    forall line, v | becomes(line, v) ensures PolicyOf(v, name) == ValueIn(line, name) {
      PolicyOfRecord(p, FlatOf(Trim(line)).value, v, name);
    }
    CollectedBy(Blank, becomes, line => ValueIn(line, name), name, lines, events, x);
  }

  /** The policy lists are those of the records, whatever becomes of the events. */
  lemma PoliciesListed(p: Platform, lines: seq<string>, events: seq<Json>, name: string)
    requires Converts(p, lines, events) && name in {AUDIT, CLUSTER}
    ensures PoliciesFrom(lines, name, Listing(Policies(events, name)))
  {
    var list := Listing(Policies(events, name));
    IncreasingMeans(list);
    forall i, j | 0 <= i < j < |list| ensures list[i] != list[j] {
      LessIrreflexive(list[i]);
    }
    forall x ensures x in list <==> x != "" && exists i :: 0 <= i < |lines| && !Blank(lines[i]) && ValueIn(lines[i], name) == x {
      PoliciesOfLines(p, lines, events, name, x);
      assert x in list <==> x in Elements(list);
    }
  }

  /** The statistics describe exactly what was sent on: the events of the lines, one a line, compressed. */
  ghost predicate Describes(p: Platform, lines: seq<string>, events: seq<Json>, stats: Stats, sent: string) {
    Converts(p, lines, events) && sent == p.gzip(Lines(events)) &&
    stats.eventCount == |events| == NonBlank(lines) == Newlines(Lines(events)) &&
    stats.sizeBytes == |sent| && stats.sha256hex == p.sha256(sent) &&
    stats.auditPolicies == Listing(Policies(events, AUDIT)) &&
    stats.clusterPolicies == Listing(Policies(events, CLUSTER)) &&
    PoliciesFrom(lines, "audit_policy_version", stats.auditPolicies) &&
    PoliciesFrom(lines, "cluster_audit_policy_version", stats.clusterPolicies)
  }

  /** What the statistics of these events have to be. */
  ghost function StatsOf(p: Platform, events: seq<Json>): Stats {
    var sent := p.gzip(Lines(events));
    Stats(|events|, |sent|, p.sha256(sent), Listing(Policies(events, AUDIT)), Listing(Policies(events, CLUSTER)))
  }

  lemma StatsDescribe(p: Platform, lines: seq<string>, events: seq<Json>)
    requires Converts(p, lines, events)
    ensures Describes(p, lines, events, StatsOf(p, events), p.gzip(Lines(events)))
  {
    ConvertsCount(p, lines, events);
    NewlinesAreEvents(events);
    PoliciesListed(p, lines, events, AUDIT);
    PoliciesListed(p, lines, events, CLUSTER);
  }

  lemma GatheredAll(p: Platform, lines: seq<string>, events: seq<Json>, text: string,
                    audit: set<string>, cluster: set<string>)
    requires Gathered(p, lines, |lines|, events, text, audit, cluster)
    ensures |events| == NonBlank(lines) == Newlines(text)
    ensures var sent := p.gzip(text);
      Describes(p, lines, events,
                Stats(|events|, |sent|, p.sha256(sent), Listing(audit), Listing(cluster)), sent)
  {
    assert lines[..|lines|] == lines;
    StatsDescribe(p, lines, events);
  }

  /** compressEvents. On success the count, size, digest and policy lists describe exactly the
      bytes that were sent on, however the compressor cut them up. It succeeds unless the scan
      fails, a line is not readable, or the reader of the pipe is gone. */
  method CompressEvents(p: Platform, lines: seq<string>, scanFails: bool, cw: CountingWriter)
    returns (r: Option<Stats>, ghost events: seq<Json>)
    requires Streams(p) && cw.Valid() && cw.sent == ""
    modifies cw
    ensures cw.Valid()
    ensures r.Some? ==> !scanFails && Describes(p, lines, events, r.value, cw.sent)
    ensures r.Some? ==> AllReadable(p, lines, |lines|)
    ensures !scanFails && cw.room.None? && AllReadable(p, lines, |lines|) ==> r.Some?
  {
    var ok, t;
    ok, t, events := GatherLines(p, lines, cw);
    if !ok || scanFails { return None, events; }
    ok := CloseGzip(p, cw, t.text);
    if !ok { return None, events; }
    GatheredAll(p, lines, events, t.text, t.audit, t.cluster);
    var auditList := SortKeys(t.audit);
    var clusterList := SortKeys(t.cluster);
    r := Some(Stats(t.count, cw.n, p.sha256(cw.hashed), auditList, clusterList));
  }

  // ----- the upload -----

  /** How the upload at the other end of the pipe goes: it takes everything, or it fails after taking
      at most `taken` bytes. */
  datatype Upload = Uploaded | Broken(taken: nat)

  /** What streamDataToS3 has done when it succeeds: its statistics, and the object it uploaded. */
  datatype Streamed = Streamed(stats: Stats, data: string)

  /** `r` is a result that streamDataToS3 may have. Only where unknown keys clash is there more than
      one, as the events then depend on the order in which maps are walked. */
  ghost predicate Streaming(p: Platform, lines: seq<string>, scanFails: bool, upload: Upload, r: Option<Streamed>) {
    (r.Some? <==> !scanFails && upload.Uploaded? && AllReadable(p, lines, |lines|)) &&
    (r.Some? ==> Tells(p, lines, r.value))
  }

  ghost predicate Tells(p: Platform, lines: seq<string>, s: Streamed) {
    exists events :: Describes(p, lines, events, s.stats, s.data)
  }

  /** Every interleaving of the two goroutines in which both end without error has uploaded `data`. */
  ghost predicate Delivers(pieces: seq<string>, data: string) {
    forall steps, s :: PipePipeline.After(pieces, steps) == Some(s) && s.main == PipePipeline.Returned(true) ==>
      s.got == data
  }

  /** streamDataToS3: the compressor at one end of the pipe, the upload at the other. On success the
      uploaded object is exactly what the statistics describe. */
  method StreamDataToS3(p: Platform, lines: seq<string>, scanFails: bool, upload: Upload)
    returns (r: Option<Streamed>, ghost pieces: seq<string>)
    requires Streams(p)
    ensures Streaming(p, lines, scanFails, upload, r)
    ensures r.Some? ==> Delivers(pieces, r.value.data)
  {
    var cw := new CountingWriter(if upload.Uploaded? then None else Some(upload.taken));
    var stats;
    ghost var events;
    stats, events := CompressEvents(p, lines, scanFails, cw);
    pieces := cw.pieces;
    if stats.None? || !upload.Uploaded? { return None, pieces; }
    r := Some(Streamed(stats.value, cw.sent));
    forall steps, s | PipePipeline.After(pieces, steps) == Some(s) && s.main == PipePipeline.Returned(true)
      ensures s.got == cw.sent
    {
      PipePipeline.MarkerMeansComplete(pieces, steps, s);
    }
  }

  // ----- readable lines and their events -----

  lemma SomeEvent(p: Platform, f: map<string, string>) returns (v: Json)
    requires EventTime(p, f).Some?
    ensures EventOf(p, f, v)
  {
    var order := SomeWalk(f.Keys - KNOWN);
    v := Obj(SetAllOf(f, order) + DeclaredFields(f, EventTime(p, f).value));
  }

  /** Readable lines stand for some events. */
  lemma {:induction false} SomeEvents(p: Platform, lines: seq<string>) returns (events: seq<Json>)
    ensures AllReadable(p, lines, |lines|) ==> Converts(p, lines, events)
  {
    events := [];
    if lines != [] && AllReadable(p, lines, |lines|) {
      var n := |lines| - 1;
      assert forall j :: 0 <= j < n ==> lines[..n][j] == lines[j];
      events := SomeEvents(p, lines[..n]);
      assert Readable(p, lines[n]) && lines[..n + 1] == lines;
      if Trim(lines[n]) != "" {
        var v := SomeEvent(p, FlatOf(Trim(lines[n])).value);
        ConvertsSnoc(p, lines, events, n, v);
        events := events + [v];
      } else {
        ConvertsSnoc(p, lines, events, n, Null);
      }
    }
  }

  /** The streaming pass has a result for every response. */
  lemma SomeStreaming(p: Platform, lines: seq<string>, scanFails: bool, upload: Upload) returns (r: Option<Streamed>)
    ensures Streaming(p, lines, scanFails, upload, r)
  {
    r := None;
    if !scanFails && upload.Uploaded? && AllReadable(p, lines, |lines|) {
      var events := SomeEvents(p, lines);
      StatsDescribe(p, lines, events);
      r := Some(Streamed(StatsOf(p, events), p.gzip(Lines(events))));
    }
  }

  function AddPolicy(seen: set<string>, v: Json, name: string): set<string> {
    if PolicyOf(v, name) != "" then seen + {PolicyOf(v, name)} else seen
  }
}
