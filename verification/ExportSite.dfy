/** What the export protocol relies on, and nothing more: a hash, a signature, a printer and a reader
    of manifests, and what streaming a response into the data object may come to. The protocol is
    proved for every such site; SiteOf is the one that the exporter's own code makes. */
module ExportSite {
  import opened Text
  import opened CanonicalJson
  import opened AuditEvents
  import opened Manifests

  datatype SiteData = SiteData(
    sha256: string -> string, sign: string -> string, hourText: int -> string,
    spell: Manifest -> string, valid: string -> bool, read: string -> Option<Facts>,
    readable: seq<string> -> bool, tells: (seq<string>, Streamed) -> bool)

  /** Printed manifests are valid and read back; streaming yields the digest of its data. */
  ghost predicate Sound(p: SiteData) {
    (forall m :: p.valid(p.spell(m)) && p.read(p.spell(m)) == Some(FactsOf(m))) &&
    (forall b :: p.read(b).Some? ==> p.valid(b)) &&
    forall lines, s :: p.tells(lines, s) ==> s.stats.sha256hex == p.sha256(s.data)
  }

  type Site = p: SiteData | Sound(p) ghost witness SiteOf(TRIVIAL)

  const TRIVIAL := Platform(t => Some(t), t => t, t => t, t => t, t => t, h => "")

  /** The site of the actual exporter. */
  ghost function SiteOf(platform: Platform): (p: SiteData)
    ensures Sound(p)
  {
    SiteSound(platform);
    SiteHere(platform)
  }

  ghost function SiteHere(platform: Platform): SiteData {
    SiteData(platform.sha256, platform.sign, platform.hourText, m => Bytes(m), b => ValidText(b), b => ReadFacts(b),
             lines => AllReadable(platform, lines, |lines|), (lines, s) => Tells(platform, lines, s))
  }

  lemma SiteSound(platform: Platform)
    ensures Sound(SiteHere(platform))
  {
    var p := SiteHere(platform);
    forall m ensures p.valid(p.spell(m)) && p.read(p.spell(m)) == Some(FactsOf(m)) { ReadBack(m); }
    forall b | p.read(b).Some? ensures p.valid(b) {}
    forall lines, s | p.tells(lines, s) ensures s.stats.sha256hex == p.sha256(s.data) {
      assert Tells(platform, lines, s);
    }
  }

  // ----- what the facts of a manifest mean -----

  /** The facts are the statistics of a streaming pass that produced this very data. */
  ghost predicate Witnessed(p: Site, data: string, f: Facts) {
    exists lines, stats :: p.tells(lines, Streamed(stats, data)) && States(f, stats)
  }

  predicate States(f: Facts, stats: Stats) {
    f.dataSha256 == stats.sha256hex && f.dataSize == stats.sizeBytes && f.eventCount == stats.eventCount &&
    f.auditPolicies == Strings(stats.auditPolicies) && f.clusterPolicies == Strings(stats.clusterPolicies)
  }

  /** The data object is the compressed text of the events of some response, and the facts give its
      digest and size, the number of events and the sorted distinct policy versions among them. */
  ghost predicate Tallies(platform: Platform, data: string, f: Facts, lines: seq<string>, events: seq<Json>) {
    Converts(platform, lines, events) && data == platform.gzip(Lines(events)) &&
    f.dataSha256 == platform.sha256(data) && f.dataSize == |data| &&
    f.eventCount == |events| == NonBlank(lines) == Newlines(Lines(events)) &&
    f.auditPolicies == Strings(Listing(Policies(events, AUDIT))) &&
    f.clusterPolicies == Strings(Listing(Policies(events, CLUSTER))) &&
    PoliciesFrom(lines, "audit_policy_version", Listing(Policies(events, AUDIT))) &&
    PoliciesFrom(lines, "cluster_audit_policy_version", Listing(Policies(events, CLUSTER)))
  }

  /** `p` is the site that `platform` makes. */
  ghost predicate MadeBy(platform: Platform, p: Site) {
    p.sha256 == platform.sha256 && p.sign == platform.sign && p.hourText == platform.hourText &&
    (forall m {:trigger Bytes(m)} :: p.spell(m) == Bytes(m)) &&
    (forall b {:trigger ValidText(b)} :: p.valid(b) <==> ValidText(b)) &&
    (forall b {:trigger ReadFacts(b)} :: p.read(b) == ReadFacts(b)) &&
    (forall lines {:trigger AllReadable(platform, lines, |lines|)} ::
      p.readable(lines) <==> AllReadable(platform, lines, |lines|)) &&
    forall lines, s {:trigger Tells(platform, lines, s)} :: p.tells(lines, s) <==> Tells(platform, lines, s)
  }

  lemma SiteMade(platform: Platform)
    ensures MadeBy(platform, SiteOf(platform))
  {}

  /** At the actual site the facts tally with the data. */
  lemma WitnessTallies(platform: Platform, p: Site, data: string, f: Facts) returns (lines: seq<string>, events: seq<Json>)
    requires MadeBy(platform, p) && Witnessed(p, data, f)
    ensures Tallies(platform, data, f, lines, events)
  {
    var stats;
    lines, stats :| p.tells(lines, Streamed(stats, data)) && States(f, stats);
    assert Tells(platform, lines, Streamed(stats, data));
    events :| Describes(platform, lines, events, stats, data);
  }
}
