/** The file watcher's baseline of content hashes, kept in a Secret across restarts (`initBaseline`,
    `Load`, `Save`). Paths are byte strings; the Secret's keys are their hex encoding. */
module Baseline {
  import opened Text
  import opened Hex

  newtype Byte = x: int | 0 <= x < 256
  type Path = seq<Byte>

  // ----- hex (section 8 of RFC 4648) -----

  function Encode(p: Path): string {
    if p == [] then "" else [HexDigit(p[0] as int / 16), HexDigit(p[0] as int % 16)] + Encode(p[1..])
  }

  /** hex.DecodeString: pairs of digits, nothing else. */
  function Decode(s: string): Option<Path> {
    if s == "" then Some([])
    else if |s| == 1 then None
    else if !IsHex(s[0]) || !IsHex(s[1]) then None
    else match Decode(s[2..])
      case None => None
      case Some(rest) => Some([(HexValue(s[0]) * 16 + HexValue(s[1])) as Byte] + rest)
  }

  lemma {:induction false} DecodeEncode(p: Path)
    ensures Decode(Encode(p)) == Some(p)
  {
    if p != [] {
      DecodeEncode(p[1..]);
      HexDigitBack(p[0] as int / 16);
      HexDigitBack(p[0] as int % 16);
      assert Encode(p)[2..] == Encode(p[1..]);
      assert [p[0]] + p[1..] == p;
    }
  }

  /** Each byte is two digits, the high one first. */
  lemma {:induction false} EncodeAt(p: Path, i: nat)
    requires i < |p|
    ensures |Encode(p)| == 2 * |p| && IsHex(Encode(p)[2 * i]) && IsHex(Encode(p)[2 * i + 1])
    ensures HexValue(Encode(p)[2 * i]) == p[i] as int / 16 && HexValue(Encode(p)[2 * i + 1]) == p[i] as int % 16
  {
    HexDigitBack(p[0] as int / 16);
    HexDigitBack(p[0] as int % 16);
    if |p| > 1 { EncodeAt(p[1..], if i > 0 then i - 1 else 0); }
  }

  lemma EncodeInjective(p: Path, q: Path)
    requires Encode(p) == Encode(q)
    ensures p == q
  {
    DecodeEncode(p);
    DecodeEncode(q);
  }

  // ----- the Secret -----

  type Hashes = map<Path, string>
  type Data = map<string, string>

  /** `data` holds exactly the entries of `hashes`, each under its encoded path. */
  ghost predicate Holds(data: Data, hashes: Hashes) {
    (forall p :: p in hashes ==> Encode(p) in data && data[Encode(p)] == hashes[p]) &&
    forall k :: k in data ==> exists p :: p in hashes && Encode(p) == k
  }

  /** Save: fills the Secret's data in any order. */
  method Save(hashes: Hashes) returns (data: Data)
    ensures Holds(data, hashes)
  {
    data := map[];
    var todo := hashes.Keys;
    while todo != {}
      invariant todo <= hashes.Keys
      invariant forall p :: p in hashes && p !in todo ==> Encode(p) in data && data[Encode(p)] == hashes[p]
      invariant forall k :: k in data ==> exists p :: p in hashes && p !in todo && Encode(p) == k
      decreases todo
    {
      var p :| p in todo;
      forall q | q in hashes && Encode(q) == Encode(p) ensures q == p { EncodeInjective(q, p); }
      data := data[Encode(p) := hashes[p]];
      todo := todo - {p};
    }
  }

  /** `hashes` may be read from `data`: one entry for each path that some key encodes. Keys that are
      not hex are passed over. */
  ghost predicate ReadsAs(data: Data, hashes: Hashes) {
    (forall k :: k in data && Decode(k).Some? ==> Decode(k).value in hashes) &&
    forall p :: p in hashes ==> exists k :: k in data && Decode(k) == Some(p) && data[k] == hashes[p]
  }

  /** Load, on any Secret and in any order. An absent Secret reads as empty. */
  method Load(secret: Option<Data>) returns (hashes: Hashes)
    ensures ReadsAs(if secret.Some? then secret.value else map[], hashes)
  {
    hashes := map[];
    if secret.None? { return; }
    var data := secret.value;
    var todo := data.Keys;
    while todo != {}
      invariant todo <= data.Keys
      invariant forall k :: k in data && k !in todo && Decode(k).Some? ==> Decode(k).value in hashes
      invariant forall p :: p in hashes ==> exists k :: k in data && Decode(k) == Some(p) && data[k] == hashes[p]
      decreases todo
    {
      var k :| k in todo;
      var path := Decode(k);
      if path.Some? { hashes := hashes[path.value := data[k]]; }
      todo := todo - {k};
    }
  }

  lemma KeyOf(data: Data, saved: Hashes, k: string, p: Path)
    requires Holds(data, saved) && k in data && Decode(k) == Some(p)
    ensures p in saved && saved[p] == data[k]
  {
    var q :| q in saved && Encode(q) == k;
    DecodeEncode(q);
  }

  lemma Entry(data: Data, saved: Hashes, p: Path)
    requires Holds(data, saved) && p in saved
    ensures Encode(p) in data && Decode(Encode(p)) == Some(p)
  {
    DecodeEncode(p);
  }

  lemma Difference(a: Hashes, b: Hashes) returns (p: Path)
    requires a != b
    ensures (p in a && p !in b) || (p in b && p !in a) || (p in a && p in b && a[p] != b[p])
  {
    p :| !((p in a <==> p in b) && (p in a ==> a[p] == b[p]));
  }

  lemma LoadedAt(data: Data, saved: Hashes, hashes: Hashes, p: Path)
    requires Holds(data, saved) && ReadsAs(data, hashes)
    ensures (p in hashes <==> p in saved) && (p in hashes ==> saved[p] == hashes[p])
  {
    if p in hashes {
      var k :| k in data && Decode(k) == Some(p) && data[k] == hashes[p];
      KeyOf(data, saved, k, p);
    }
    if p in saved { Entry(data, saved, p); }
  }

  /** What was saved is what is loaded: on a saved Secret Load has only one possible result. */
  lemma LoadSaved(data: Data, saved: Hashes, hashes: Hashes)
    requires Holds(data, saved) && ReadsAs(data, hashes)
    ensures hashes == saved
  {
    if hashes != saved {
      var p := Difference(hashes, saved);
      LoadedAt(data, saved, hashes, p);
    }
  }

  // ----- one start of the watcher -----

  /** Paths seen for the first time are taken up; a missing file has the empty hash. */
  function Absorb(stored: Hashes, current: Hashes): Hashes {
    map p | p in stored.Keys + current.Keys && (p in stored || current[p] != "") ::
      if p in stored then stored[p] else current[p]
  }

  datatype Event = Modified | Deleted
  type Gauges = map<(Path, Event), bool>

  predicate IsModified(loaded: Hashes, p: Path, hash: string) { hash != "" && p in loaded && loaded[p] != hash }

  /** What the drift gauges say about one path after a start. */
  ghost predicate FlagsAt(g: Gauges, loaded: Hashes, p: Path, hash: string) {
    (p, Modified) in g && (p, Deleted) in g &&
    (g[(p, Deleted)] <==> hash == "") && (g[(p, Modified)] <==> IsModified(loaded, p, hash))
  }

  ghost predicate Flags(g: Gauges, loaded: Hashes, current: Hashes) {
    forall p :: p in current ==> FlagsAt(g, loaded, p, current[p])
  }

  /** The comparison loop of initBaseline, over the current hashes in any order. */
  method Compare(loaded: Hashes, current: Hashes) returns (stored: Hashes, g: Gauges)
    ensures stored == Absorb(loaded, current) && Flags(g, loaded, current)
  {
    stored, g := loaded, map[];
    ghost var seen: Hashes := map[];
    var todo := current.Keys;
    while todo != {}
      invariant todo <= current.Keys && seen.Keys == current.Keys - todo
      invariant forall p :: p in seen ==> seen[p] == current[p]
      invariant stored == Absorb(loaded, seen) && Flags(g, loaded, seen)
      decreases todo
    {
      var p :| p in todo;
      stored, g := CompareOne(stored, g, loaded, p, current[p], seen);
      seen := seen[p := current[p]];
      todo := todo - {p};
    }
    assert seen == current;
  }

  lemma AbsorbOne(loaded: Hashes, seen: Hashes, p: Path, hash: string)
    requires p !in seen
    ensures p in Absorb(loaded, seen) <==> p in loaded
    ensures p in loaded ==> Absorb(loaded, seen)[p] == loaded[p]
    ensures Absorb(loaded, seen[p := hash]) ==
            if hash == "" || p in loaded then Absorb(loaded, seen) else Absorb(loaded, seen)[p := hash]
  {}

  /** One path: missing, new, changed or unchanged. */
  method CompareOne(stored0: Hashes, g0: Gauges, loaded: Hashes, p: Path, hash: string, ghost seen: Hashes)
    returns (stored: Hashes, g: Gauges)
    requires p !in seen && stored0 == Absorb(loaded, seen) && Flags(g0, loaded, seen)
    ensures stored == Absorb(loaded, seen[p := hash]) && Flags(g, loaded, seen[p := hash])
  {
    AbsorbOne(loaded, seen, p, hash);
    stored := stored0;
    var modified, deleted := false, false;
    if hash == "" {
      deleted := true;
    } else if p !in stored {
      stored := stored[p := hash];
    } else if stored[p] != hash {
      modified := true;
    }
    g := g0[(p, Modified) := modified][(p, Deleted) := deleted];
    forall q | q in seen ensures FlagsAt(g, loaded, q, seen[q]) { assert FlagsAt(g0, loaded, q, seen[q]); }
  }

  /** initBaseline with a store: load, compare, save. */
  method InitBaseline(secret: Option<Data>, current: Hashes) returns (secret': Data, g: Gauges)
    ensures exists loaded ::
      ReadsAs(if secret.Some? then secret.value else map[], loaded) &&
      Holds(secret', Absorb(loaded, current)) && Flags(g, loaded, current)
  {
    var loaded := Load(secret);
    var stored;
    stored, g := Compare(loaded, current);
    secret' := Save(stored);
  }

  // ----- any number of restarts -----

  /** A start with the file contents it found; `saves` tells whether it came as far as a save that took
      effect. A failed load or save leaves the baseline as it was. */
  datatype Start = Start(current: Hashes, saves: bool)

  function Kept(starts: seq<Start>): Hashes {
    if starts == [] then map[]
    else
      var before := Kept(starts[..|starts| - 1]);
      if starts[|starts| - 1].saves then Absorb(before, starts[|starts| - 1].current) else before
  }

  predicate Sees(s: Start, p: Path) { s.saves && p in s.current && s.current[p] != "" }

  /** The hash a path had when it was first recorded. */
  function FirstSeen(starts: seq<Start>, p: Path): Option<string> {
    if starts == [] then None
    else
      var before := FirstSeen(starts[..|starts| - 1], p);
      if before.Some? then before
      else if Sees(starts[|starts| - 1], p) then Some(starts[|starts| - 1].current[p])
      else None
  }

  /** A start that finds the baseline of earlier starts leaves the baseline of them and itself. */
  lemma RestartCarriesOn(starts: seq<Start>, secret: Data, current: Hashes, loaded: Hashes, secret': Data)
    requires Holds(secret, Kept(starts)) && ReadsAs(secret, loaded) && Holds(secret', Absorb(loaded, current))
    ensures loaded == Kept(starts) && Holds(secret', Kept(starts + [Start(current, true)]))
  {
    LoadSaved(secret, Kept(starts), loaded);
    assert (starts + [Start(current, true)])[..|starts|] == starts;
  }

  /** Over any number of starts the baseline holds, for every path, the hash of its first sight. */
  lemma {:induction false} BaselineIsFirstSight(starts: seq<Start>, p: Path)
    ensures p in Kept(starts) <==> FirstSeen(starts, p).Some?
    ensures p in Kept(starts) ==> Kept(starts)[p] == FirstSeen(starts, p).value
  {
    if starts != [] { BaselineIsFirstSight(starts[..|starts| - 1], p); }
  }

  /** Further starts, whatever they find, never replace or lose a recorded hash. */
  lemma {:induction false} BaselineSticks(starts: seq<Start>, more: seq<Start>, p: Path)
    requires p in Kept(starts)
    ensures p in Kept(starts + more) && Kept(starts + more)[p] == Kept(starts)[p]
  {
    if more == [] {
      assert starts + more == starts;
    } else {
      assert (starts + more)[..|starts + more| - 1] == starts + more[..|more| - 1];
      BaselineSticks(starts, more[..|more| - 1], p);
    }
  }

  /** A completed start flags a present file as modified exactly when its hash differs from the first
      one on record. */
  lemma ModifiedMeansChanged(starts: seq<Start>, current: Hashes, g: Gauges, p: Path)
    requires Flags(g, Kept(starts), current) && p in current && current[p] != ""
    ensures (p, Modified) in g && (p, Deleted) in g
    ensures g[(p, Modified)] <==> FirstSeen(starts, p).Some? && FirstSeen(starts, p).value != current[p]
    ensures !g[(p, Deleted)]
  {
    BaselineIsFirstSight(starts, p);
    assert FlagsAt(g, Kept(starts), p, current[p]);
  }

  /** A start flags a missing file as deleted, and as nothing else. */
  lemma DeletedMeansMissing(loaded: Hashes, current: Hashes, g: Gauges, p: Path)
    requires Flags(g, loaded, current) && p in current
    ensures (p, Deleted) in g && (p, Modified) in g
    ensures g[(p, Deleted)] <==> current[p] == ""
    ensures current[p] == "" ==> !g[(p, Modified)]
  {
    assert FlagsAt(g, loaded, p, current[p]);
  }
}
