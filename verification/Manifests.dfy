/** manifest.json: what the exporter writes into it, and what a reader gets out of its bytes. */
module Manifests {
  import opened Text
  import opened CanonicalJson
  import opened Unflatten

  datatype Manifest = Manifest(
    auditPolicies: seq<string>,
    clusterPolicies: seq<string>,
    createdAt: string,
    dataSha256: string,
    dataSize: nat,
    eventCount: nat,
    keyId: string,
    previous: string,
    producer: string,
    stream: string,
    tenant: string,
    windowEnd: string,
    windowStart: string)

  function Strings(xs: seq<string>): Json {
    Arr(seq(|xs|, i requires 0 <= i < |xs| => Str(xs[i])))
  }

  /** A list of strings is an array of exactly these, in their order. */
  lemma StringsAre(xs: seq<string>, ys: seq<string>)
    ensures Strings(xs).Arr? && |Strings(xs).items| == |xs| && forall i :: 0 <= i < |xs| ==> Strings(xs).items[i] == Str(xs[i])
    ensures Strings(xs) == Strings(ys) ==> xs == ys
  {
    if Strings(xs) == Strings(ys) {
      forall i | 0 <= i < |xs| ensures xs[i] == ys[i] { assert Strings(xs).items[i] == Strings(ys).items[i]; }
    }
  }

  function DataFileFields(m: Manifest): Fields {
    map["name" := Str("data.jsonl.gz"), "sha256" := Str(m.dataSha256), "size_bytes" := Num(m.dataSize)]
  }

  const KEYS: set<string> := {
    "audit_policy_versions", "cluster_audit_policy_versions", "created_at", "data_file", "event_count",
    "event_schema_version", "kms_key_id", "manifest_version", "previous_manifest_sha256", "producer",
    "signing_algorithm", "stream", "tenant", "window_end", "window_start"
  }

  function Field(m: Manifest, k: string): Json {
    if k == "stream" then Str(m.stream)
    else if k == "tenant" then Str(m.tenant)
    else if k == "event_count" then Num(m.eventCount)
    else if k == "data_file" then Obj(DataFileFields(m))
    else if k == "previous_manifest_sha256" then Str(m.previous)
    else if k == "window_start" then Str(m.windowStart)
    else if k == "window_end" then Str(m.windowEnd)
    else if k == "audit_policy_versions" then Strings(m.auditPolicies)
    else if k == "cluster_audit_policy_versions" then Strings(m.clusterPolicies)
    else if k == "created_at" then Str(m.createdAt)
    else if k == "kms_key_id" then Str(m.keyId)
    else if k == "producer" then Str(m.producer)
    else if k == "signing_algorithm" then Str("HMAC-SHA256")
    else Str("1")
  }

  function Tree(m: Manifest): Json { Obj(map k | k in KEYS :: Field(m, k)) }

  /** The bytes that marshalCanonical makes of a manifest. */
  ghost function Bytes(m: Manifest): string { Marshal(Tree(m)) }

  /** What a reader of a manifest relies on. */
  datatype Facts = Facts(
    dataSha256: string, dataSize: int, eventCount: int, auditPolicies: Json, clusterPolicies: Json,
    previous: string, stream: string, tenant: string, windowStart: string, windowEnd: string,
    origin: Origin)

  /** Who made the manifest, when and how. */
  datatype Origin = Origin(
    createdAt: string, keyId: string, producer: string, fileName: string, algorithm: string,
    manifestVersion: string, schemaVersion: string)

  function StrAt(m: Fields, k: string): string { if k in m && m[k].Str? then m[k].s else "" }
  function At(m: Fields, k: string): Json { if k in m then m[k] else Null }
  function NumAt(m: Fields, k: string): int { if k in m && m[k].Num? then m[k].n else 0 }

  function ReadTree(v: Json): Option<Facts> {
    if !v.Obj? then None
    else
      var m := v.fields;
      var file := Sub(m, "data_file");
      Some(Facts(StrAt(file, "sha256"), NumAt(file, "size_bytes"), NumAt(m, "event_count"),
                 At(m, "audit_policy_versions"), At(m, "cluster_audit_policy_versions"),
                 StrAt(m, "previous_manifest_sha256"), StrAt(m, "stream"), StrAt(m, "tenant"),
                 StrAt(m, "window_start"), StrAt(m, "window_end"),
                 Origin(StrAt(m, "created_at"), StrAt(m, "kms_key_id"), StrAt(m, "producer"), StrAt(file, "name"),
                        StrAt(m, "signing_algorithm"), StrAt(m, "manifest_version"), StrAt(m, "event_schema_version"))))
  }

  /** Reading manifest bytes; bytes that are not a JSON object give nothing. */
  function ReadFacts(bytes: string): Option<Facts> {
    match Unmarshal(bytes)
    case None => None
    case Some(v) => ReadTree(v)
  }

  function FactsOf(m: Manifest): Facts {
    Facts(m.dataSha256, m.dataSize, m.eventCount, Strings(m.auditPolicies), Strings(m.clusterPolicies),
          m.previous, m.stream, m.tenant, m.windowStart, m.windowEnd,
          Origin(m.createdAt, m.keyId, m.producer, "data.jsonl.gz", "HMAC-SHA256", "1", "1"))
  }

  lemma FileBack(m: Manifest)
    ensures StrAt(DataFileFields(m), "sha256") == m.dataSha256
    ensures NumAt(DataFileFields(m), "size_bytes") == m.dataSize
    ensures StrAt(DataFileFields(m), "name") == "data.jsonl.gz"
  {}

  lemma DataFileBack(m: Manifest)
    ensures Sub(Tree(m).fields, "data_file") == DataFileFields(m)
    ensures NumAt(Tree(m).fields, "event_count") == m.eventCount
  {
    assert "data_file" in KEYS && "event_count" in KEYS;
  }

  lemma NamesBack(m: Manifest)
    ensures StrAt(Tree(m).fields, "stream") == m.stream
    ensures StrAt(Tree(m).fields, "tenant") == m.tenant
  {
    assert "stream" in KEYS && "tenant" in KEYS;
  }

  lemma LinkBack(m: Manifest)
    ensures StrAt(Tree(m).fields, "previous_manifest_sha256") == m.previous
  {
    assert "previous_manifest_sha256" in KEYS;
  }

  lemma WindowBack(m: Manifest)
    ensures StrAt(Tree(m).fields, "window_start") == m.windowStart
    ensures StrAt(Tree(m).fields, "window_end") == m.windowEnd
  {
    assert "window_start" in KEYS && "window_end" in KEYS;
  }

  lemma MakerBack(m: Manifest)
    ensures StrAt(Tree(m).fields, "created_at") == m.createdAt
    ensures StrAt(Tree(m).fields, "kms_key_id") == m.keyId
    ensures StrAt(Tree(m).fields, "producer") == m.producer
  {
    assert "created_at" in KEYS && "kms_key_id" in KEYS && "producer" in KEYS;
  }

  lemma VersionsBack(m: Manifest)
    ensures StrAt(Tree(m).fields, "signing_algorithm") == "HMAC-SHA256"
    ensures StrAt(Tree(m).fields, "manifest_version") == "1"
    ensures StrAt(Tree(m).fields, "event_schema_version") == "1"
  {
    assert "signing_algorithm" in KEYS && "manifest_version" in KEYS && "event_schema_version" in KEYS;
  }

  lemma PoliciesBack(m: Manifest)
    ensures At(Tree(m).fields, "audit_policy_versions") == Strings(m.auditPolicies)
    ensures At(Tree(m).fields, "cluster_audit_policy_versions") == Strings(m.clusterPolicies)
  {
    assert "audit_policy_versions" in KEYS && "cluster_audit_policy_versions" in KEYS;
  }

  lemma TreeBack(m: Manifest)
    ensures ReadTree(Tree(m)) == Some(FactsOf(m))
  {
    FileBack(m);
    DataFileBack(m);
    NamesBack(m);
    LinkBack(m);
    WindowBack(m);
    PoliciesBack(m);
    MakerBack(m);
    VersionsBack(m);
  }

  /** Manifest bytes are valid JSON, and reading them gives back what was written. */
  lemma ReadBack(m: Manifest)
    ensures ValidText(Bytes(m)) && ReadFacts(Bytes(m)) == Some(FactsOf(m))
  {
    CanonicalRoundTrip(Tree(m));
    TreeBack(m);
  }
}
