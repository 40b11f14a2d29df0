/** Object-store key layouts: the audit layout and the cold-storage layout (`S3KeyPrefix`), over a
    proleptic Gregorian calendar, and exactly when they keep windows apart. */
module KeyLayout {
  import opened Text
  import opened JsonText

  // ----- hours to calendar -----

  datatype Date = Date(year: nat, month: nat, day: nat)

  predicate Leap(year: nat) { year % 4 == 0 && (year % 100 != 0 || year % 400 == 0) }

  function DaysIn(year: nat, month: nat): nat {
    if month == 2 then (if Leap(year) then 29 else 28)
    else if month == 4 || month == 6 || month == 9 || month == 11 then 30
    else 31
  }

  predicate OnCalendar(d: Date) { 1 <= d.month <= 12 && 1 <= d.day <= DaysIn(d.year, d.month) }

  function NextDay(d: Date): Date {
    if d.day < DaysIn(d.year, d.month) then d.(day := d.day + 1)
    else if d.month < 12 then Date(d.year, d.month + 1, 1)
    else Date(d.year + 1, 1, 1)
  }

  /** The date that is `days` days after 1 January of year 0. */
  function DateOf(days: nat): (d: Date)
    ensures OnCalendar(d)
  {
    if days == 0 then Date(0, 1, 1) else NextDay(DateOf(days - 1))
  }

  predicate Earlier(a: Date, b: Date) {
    a.year < b.year ||
    (a.year == b.year && (a.month < b.month || (a.month == b.month && a.day < b.day)))
  }

  lemma {:induction false} DatesAdvance(m: nat, n: nat)
    requires m < n
    ensures Earlier(DateOf(m), DateOf(n))
  {
    if m < n - 1 { DatesAdvance(m, n - 1); }
  }

  /** Leap years before year `y`, counting year 0. */
  function LeapsBefore(y: nat): int { (y + 3) / 4 - (y + 99) / 100 + (y + 399) / 400 }

  /** Days before the first of a month, in a year that is not a leap year. */
  function DaysBefore(month: nat): nat
    requires 1 <= month <= 12
  {
    [0, 31, 59, 90, 120, 151, 181, 212, 243, 273, 304, 334][month - 1]
  }

  /** The number of a date by the usual closed formula. */
  function DayNumber(d: Date): int
    requires 1 <= d.month <= 12
  {
    365 * d.year + LeapsBefore(d.year) + DaysBefore(d.month) +
    (if d.month > 2 then LeapsBefore(d.year + 1) - LeapsBefore(d.year) else 0) + d.day - 1
  }

  lemma LeapCounts(y: nat)
    ensures LeapsBefore(y + 1) - LeapsBefore(y) == if Leap(y) then 1 else 0
  {
    assert (y + 4) / 4 - (y + 3) / 4 == if y % 4 == 0 then 1 else 0;
    assert (y + 100) / 100 - (y + 99) / 100 == if y % 100 == 0 then 1 else 0;
    assert (y + 400) / 400 - (y + 399) / 400 == if y % 400 == 0 then 1 else 0;
    assert y % 100 == 0 ==> y % 4 == 0;
    assert y % 400 == 0 ==> y % 100 == 0;
  }

  lemma NextNumber(d: Date)
    requires OnCalendar(d)
    ensures OnCalendar(NextDay(d)) && DayNumber(NextDay(d)) == DayNumber(d) + 1
  {
    LeapCounts(d.year);
  }

  /** The date of a day is the one whose number, by the closed formula, is that day. */
  lemma {:induction false} DateNumber(days: nat)
    ensures DayNumber(DateOf(days)) == days
  {
    if days > 0 {
      DateNumber(days - 1);
      NextNumber(DateOf(days - 1));
    }
  }

  /** Hours since the start of year 0, as UTC calendar hours. */
  function DayOfHour(hour: nat): Date { DateOf(hour / 24) }

  predicate FourDigitYear(hour: nat) { DayOfHour(hour).year <= 9999 }

  lemma HoursSeparate(h: nat, k: nat)
    requires DayOfHour(h) == DayOfHour(k) && h % 24 == k % 24
    ensures h == k
  {
    if h / 24 < k / 24 { DatesAdvance(h / 24, k / 24); }
    if k / 24 < h / 24 { DatesAdvance(k / 24, h / 24); }
  }

  // ----- fixed-width numbers -----

  function Two(n: nat): (s: string)
    requires n < 100
    ensures |s| == 2
  {
    [Digit(n / 10), Digit(n % 10)]
  }

  function Four(n: nat): (s: string)
    requires n < 10000
    ensures |s| == 4
  {
    Two(n / 100) + Two(n % 100)
  }

  /** Fixed-width numbers are decimal numbers. */
  lemma TwoValue(n: nat)
    requires n < 100
    ensures (forall i :: 0 <= i < 2 ==> IsDigit(Two(n)[i])) && DecimalValue(Two(n)) == n
  {
    var s := Two(n);
    assert s[..1] == [s[0]] && s[..1][..0] == "";
    assert DecimalValue(s[..1]) == n / 10;
  }

  lemma {:induction false} DecimalConcat(a: string, b: string)
    requires (forall i :: 0 <= i < |a| ==> IsDigit(a[i])) && |b| == 2 && IsDigit(b[0]) && IsDigit(b[1])
    ensures (forall i :: 0 <= i < |a + b| ==> IsDigit((a + b)[i])) && DecimalValue(a + b) == DecimalValue(a) * 100 + DecimalValue(b)
  {
    var s := a + b;
    assert s[..|s| - 1] == a + [b[0]] && (a + [b[0]])[..|a|] == a;
    assert DecimalValue(a + [b[0]]) == DecimalValue(a) * 10 + (b[0] as int - '0' as int);
    assert b[..1] == [b[0]] && b[..1][..0] == "";
    assert DecimalValue(b[..1]) == b[0] as int - '0' as int;
  }

  lemma FourValue(n: nat)
    requires n < 10000
    ensures (forall i :: 0 <= i < 4 ==> IsDigit(Four(n)[i])) && DecimalValue(Four(n)) == n
  {
    TwoValue(n / 100);
    TwoValue(n % 100);
    DecimalConcat(Two(n / 100), Two(n % 100));
  }

  lemma TwoInjective(m: nat, n: nat)
    requires m < 100 && n < 100 && Two(m) == Two(n)
    ensures m == n
  {
    assert Two(m)[0] == Two(n)[0] && Two(m)[1] == Two(n)[1];
  }

  lemma FourInjective(m: nat, n: nat)
    requires m < 10000 && n < 10000 && Four(m) == Four(n)
    ensures m == n
  {
    assert Four(m)[..2] == Two(m / 100) && Four(n)[..2] == Two(n / 100);
    assert Four(m)[2..] == Two(m % 100) && Four(n)[2..] == Two(n % 100);
    TwoInjective(m / 100, n / 100);
    TwoInjective(m % 100, n % 100);
  }

  /** The four numbers of an hour, each at its own place in the text. */
  ghost predicate SpellsHour(s: string, hour: nat, at: seq<nat>)
    requires FourDigitYear(hour)
  {
    var d := DayOfHour(hour);
    |at| == 4 && at[0] + 4 <= |s| && at[1] + 2 <= |s| && at[2] + 2 <= |s| && at[3] + 2 <= |s| &&
    s[at[0]..at[0] + 4] == Four(d.year) && s[at[1]..at[1] + 2] == Two(d.month) &&
    s[at[2]..at[2] + 2] == Two(d.day) && s[at[3]..at[3] + 2] == Two(hour % 24)
  }

  lemma SpelledHour(s: string, h: nat, k: nat, at: seq<nat>)
    requires FourDigitYear(h) && FourDigitYear(k) && SpellsHour(s, h, at) && SpellsHour(s, k, at)
    ensures h == k
  {
    var d, e := DayOfHour(h), DayOfHour(k);
    FourInjective(d.year, e.year);
    TwoInjective(d.month, e.month);
    TwoInjective(d.day, e.day);
    TwoInjective(h % 24, k % 24);
    HoursSeparate(h, k);
  }

  // ----- the audit layout -----

  /** The layout 2006/01/02/15. */
  function AuditStamp(hour: nat): (s: string)
    requires FourDigitYear(hour)
    ensures |s| == 13
  {
    var d := DayOfHour(hour);
    Four(d.year) + "/" + Two(d.month) + "/" + Two(d.day) + "/" + Two(hour % 24)
  }

  function Base(prefix: string): string { if prefix == "" then "" else prefix + "/" }

  /** ExportWindow.S3KeyPrefix of the audit exporter. */
  function AuditPrefix(prefix: string, stream: string, tenant: string, hour: nat): string
    requires FourDigitYear(hour)
  {
    Base(prefix) + (stream + "/" + tenant) + "/" + AuditStamp(hour) + "/"
  }

  /** The directories of an audit key, from the prefix down. */
  function AuditDirs(prefix: string, stream: string, tenant: string, hour: nat): seq<string>
    requires FourDigitYear(hour)
  {
    var d := DayOfHour(hour);
    Top(prefix, stream) + [tenant] +
    [Four(d.year)] + [Two(d.month)] + [Two(d.day)] + [Two(hour % 24)] + [""]
  }

  lemma Flat(j: string, y: string, m: string, d: string, h: string)
    ensures j + "/" + (y + "/" + m + "/" + d + "/" + h) + "/" == j + "/" + y + "/" + m + "/" + d + "/" + h + "/" + ""
  {}

  lemma Heads(prefix: string, s: string)
    ensures Join(Top(prefix, s), '/') == Base(prefix) + s
  {
    JoinSnoc(if prefix == "" then [] else [prefix], s, '/');
  }

  /** Five more directories below those of `j`. */
  lemma FiveMore(head: seq<string>, j: string, a: string, b: string, c: string, d: string, e: string)
    requires head != [] && Join(head, '/') == j
    ensures Join(head + [a] + [b] + [c] + [d] + [e], '/') == j + "/" + a + "/" + b + "/" + c + "/" + d + "/" + e
  {
    JoinSnoc(head, a, '/');
    JoinSnoc(head + [a], b, '/');
    JoinSnoc(head + [a] + [b], c, '/');
    JoinSnoc(head + [a] + [b] + [c], d, '/');
    JoinSnoc(head + [a] + [b] + [c] + [d], e, '/');
  }

  function Top(prefix: string, s: string): seq<string> { (if prefix == "" then [] else [prefix]) + [s] }

  lemma Grouped(a: string, b: string, c: string, d: string)
    ensures a + b + c + d == a + (b + c + d)
  {}

  lemma HeadTwo(prefix: string, s: string, t: string)
    ensures Join(Top(prefix, s) + [t], '/') == Base(prefix) + (s + "/" + t)
  {
    Heads(prefix, s);
    JoinSnoc(Top(prefix, s), t, '/');
    Grouped(Base(prefix), s, ['/'], t);
  }

  lemma DirsJoined(prefix: string, s: string, t: string, y: string, m: string, d: string, h: string)
    ensures Join(Top(prefix, s) + [t] + [y] + [m] + [d] + [h] + [""], '/') ==
            Base(prefix) + (s + "/" + t) + "/" + (y + "/" + m + "/" + d + "/" + h) + "/"
  {
    HeadTwo(prefix, s, t);
    FiveMore(Top(prefix, s) + [t], Base(prefix) + (s + "/" + t), y, m, d, h, "");
    Flat(Base(prefix) + (s + "/" + t), y, m, d, h);
  }

  lemma AuditJoined(prefix: string, s: string, t: string, hour: nat)
    requires FourDigitYear(hour)
    ensures AuditPrefix(prefix, s, t, hour) == Join(AuditDirs(prefix, s, t, hour), '/')
  {
    var d := DayOfHour(hour);
    DirsJoined(prefix, s, t, Four(d.year), Two(d.month), Two(d.day), Two(hour % 24));
  }

  ghost predicate Plain(parts: seq<string>) { forall i :: 0 <= i < |parts| ==> '/' !in parts[i] }

  lemma PlainTop(prefix: string, s: string)
    requires '/' !in prefix && '/' !in s
    ensures Plain(Top(prefix, s))
  {}

  lemma PlainFive(head: seq<string>, a: string, b: string, c: string, d: string, e: string)
    requires Plain(head) && '/' !in a && '/' !in b && '/' !in c && '/' !in d && '/' !in e
    ensures Plain(head + [a] + [b] + [c] + [d] + [e])
  {}

  lemma NumbersPlain(n: nat)
    requires n < 10000
    ensures '/' !in Four(n) && (n < 100 ==> '/' !in Two(n))
  {
    FourValue(n);
    if n < 100 { TwoValue(n); }
  }

  /** Reading an audit key: prefix, stream, tenant, year, month, day and hour, in this order. */
  lemma AuditKeyReads(prefix: string, s: string, t: string, hour: nat)
    requires FourDigitYear(hour) && '/' !in prefix && '/' !in s && '/' !in t
    ensures Split(AuditPrefix(prefix, s, t, hour), '/') == AuditDirs(prefix, s, t, hour)
  {
    var d := DayOfHour(hour);
    NumbersPlain(d.year);
    NumbersPlain(d.month);
    NumbersPlain(d.day);
    NumbersPlain(hour % 24);
    PlainTop(prefix, s);
    assert Plain(Top(prefix, s) + [t]);
    PlainFive(Top(prefix, s) + [t], Four(d.year), Two(d.month), Two(d.day), Two(hour % 24), "");
    AuditJoined(prefix, s, t, hour);
    SplitJoin(AuditDirs(prefix, s, t, hour), '/');
  }

  lemma AuditStampInjective(h: nat, k: nat)
    requires FourDigitYear(h) && FourDigitYear(k) && AuditStamp(h) == AuditStamp(k)
    ensures h == k
  {
    AuditStampSpells(h);
    AuditStampSpells(k);
    SpelledHour(AuditStamp(h), h, k, [0, 5, 8, 11]);
  }

  lemma AuditStampSpells(h: nat)
    requires FourDigitYear(h)
    ensures SpellsHour(AuditStamp(h), h, [0, 5, 8, 11])
  {
    var d := DayOfHour(h);
    var s := AuditStamp(h);
    assert s[0..4] == Four(d.year);
    assert s[5..7] == Two(d.month);
    assert s[8..10] == Two(d.day);
    assert s[11..13] == Two(h % 24);
  }

  lemma Middle(a: string, b: string, c: string, b': string, c': string, tail: string)
    requires a + b + tail + c == a + b' + tail + c' && |c| == |c'|
    ensures b == b' && c == c'
  {
    var s, s' := a + b + tail + c, a + b' + tail + c';
    assert |b| == |b'|;
    assert s[|a|..|a| + |b|] == b && s'[|a|..|a| + |b|] == b';
    assert s[|s| - |c|..] == c && s'[|s'| - |c'|..] == c';
  }

  lemma AuditParts(prefix: string, s: string, t: string, h: nat, s': string, t': string, h': nat)
    requires FourDigitYear(h) && FourDigitYear(h')
    ensures AuditPrefix(prefix, s, t, h) == AuditPrefix(prefix, s', t', h') <==>
            s + "/" + t == s' + "/" + t' && h == h'
  {
    var c, c' := AuditStamp(h) + "/", AuditStamp(h') + "/";
    assert AuditPrefix(prefix, s, t, h) == Base(prefix) + (s + "/" + t) + "/" + c;
    assert AuditPrefix(prefix, s', t', h') == Base(prefix) + (s' + "/" + t') + "/" + c';
    if AuditPrefix(prefix, s, t, h) == AuditPrefix(prefix, s', t', h') {
      Middle(Base(prefix), s + "/" + t, c, s' + "/" + t', c', "/");
      assert c[..13] == AuditStamp(h) && c'[..13] == AuditStamp(h');
      AuditStampInjective(h, h');
    }
  }

  lemma NoOverlap(s: string, i: nat, j: nat, sep: string)
    requires sep != "" && (forall m :: 0 < m < |sep| ==> sep[m] != sep[0])
    requires i < j && j + |sep| <= |s| && s[i..i + |sep|] == sep && s[j..j + |sep|] == sep
    ensures i + |sep| <= j
  {
    assert s[j..j + |sep|][0] == s[j];
  }

  /** The text `a + sep + x` tells `a` and `x` apart from another such pair unless one head,
      followed by the separator, starts the other. */
  lemma HeadsClash(a: string, x: string, b: string, y: string, sep: string)
    requires sep != "" && (forall m :: 0 < m < |sep| ==> sep[m] != sep[0])
    requires a + sep + x == b + sep + y && a != b
    ensures a + sep <= b || b + sep <= a
  {
    var s, t := a + sep + x, b + sep + y;
    assert s[..|a|] == a && t[..|b|] == b;
    assert s[|a|..|a| + |sep|] == sep && t[|b|..|b| + |sep|] == sep;
    assert a + sep == s[..|a| + |sep|] && b + sep == t[..|b| + |sep|];
    if |a| < |b| { NoOverlap(s, |a|, |b|, sep); }
    if |b| < |a| { NoOverlap(s, |b|, |a|, sep); }
  }

  /** Where neither head holds the first character of the separator, both parts can be read off. */
  lemma SplitAtFirst(a: string, x: string, b: string, y: string, sep: string)
    requires sep != "" && sep[0] !in a && sep[0] !in b && a + sep + x == b + sep + y
    ensures a == b && x == y
  {
    var s, t := a + sep + x, b + sep + y;
    assert s[..|a|] == a && t[..|b|] == b;
    assert s[|a|] == sep[0] && t[|b|] == sep[0];
    assert s[|a| + |sep|..] == x && t[|b| + |sep|..] == y;
  }

  /** Two streams can meet in one key exactly when one of them, followed by a slash, starts the
      other; in particular never when stream names have no slash, whatever tenants hold. */
  lemma AuditStreamsMeet(prefix: string, s: string, s': string, h: nat)
    requires s != s' && FourDigitYear(h)
    ensures (exists t, t' :: AuditPrefix(prefix, s, t, h) == AuditPrefix(prefix, s', t', h))
            <==> s + "/" <= s' || s' + "/" <= s
  {
    if t, t' :| AuditPrefix(prefix, s, t, h) == AuditPrefix(prefix, s', t', h) {
      AuditParts(prefix, s, t, h, s', t', h);
      HeadsClash(s, t, s', t', "/");
    }
    if s + "/" <= s' {
      var t := s'[|s| + 1..] + "/";
      assert s + "/" + t == s' + "/" + "";
      AuditParts(prefix, s, t, h, s', "", h);
    }
    if s' + "/" <= s {
      var t := s[|s'| + 1..] + "/";
      assert s' + "/" + t == s + "/" + "";
      AuditParts(prefix, s, "", h, s', t, h);
    }
  }

  /** With slash-free stream names the audit layout separates windows, even if tenants have slashes. */
  lemma AuditKeysSeparate(prefix: string, s: string, t: string, h: nat, s': string, t': string, h': nat)
    requires FourDigitYear(h) && FourDigitYear(h') && '/' !in s && '/' !in s'
    requires AuditPrefix(prefix, s, t, h) == AuditPrefix(prefix, s', t', h')
    ensures s == s' && t == t' && h == h'
  {
    AuditParts(prefix, s, t, h, s', t', h');
    SplitAtFirst(s, t, s', t', "/");
  }

  // ----- the cold-storage layout -----

  /** Everything after the cluster name: /dt=2006-01-02/hour=15. */
  function ColdStamp(hour: nat): (s: string)
    requires FourDigitYear(hour)
    ensures |s| == 22
  {
    var d := DayOfHour(hour);
    "/dt=" + Four(d.year) + "-" + Two(d.month) + "-" + Two(d.day) + "/hour=" + Two(hour % 24)
  }

  /** ExportWindow.S3KeyPrefix of the cold-storage exporter. */
  function ColdPrefix(prefix: string, source: string, tenant: string, cluster: string, hour: nat): string
    requires FourDigitYear(hour)
  {
    Base(prefix) + "tenant=" + (tenant + "/cluster=" + cluster) + ColdStamp(hour) + "/" + source + "/"
  }

  /** The directories of a cold-storage key, from the prefix down. */
  function ColdDirs(prefix: string, source: string, tenant: string, cluster: string, hour: nat): seq<string>
    requires FourDigitYear(hour)
  {
    var d := DayOfHour(hour);
    Top(prefix, "tenant=" + tenant) + ["cluster=" + cluster] +
    ["dt=" + (Four(d.year) + "-" + Two(d.month) + "-" + Two(d.day))] + ["hour=" + Two(hour % 24)] + [source] + [""]
  }

  lemma ColdFlat(base: string, t: string, c: string, dt: string, h: string, src: string)
    ensures base + ("tenant=" + t) + "/" + ("cluster=" + c) + "/" + ("dt=" + dt) + "/" + ("hour=" + h) + "/" + src + "/" + "" ==
            base + "tenant=" + (t + "/cluster=" + c) + ("/dt=" + dt + "/hour=" + h) + "/" + src + "/"
  {}

  lemma ColdStampIs(y: string, m: string, d: string, h: string)
    ensures "/dt=" + y + "-" + m + "-" + d + "/hour=" + h == "/dt=" + (y + "-" + m + "-" + d) + "/hour=" + h
  {}

  lemma ColdJoined(prefix: string, source: string, tenant: string, cluster: string, hour: nat)
    requires FourDigitYear(hour)
    ensures ColdPrefix(prefix, source, tenant, cluster, hour) == Join(ColdDirs(prefix, source, tenant, cluster, hour), '/')
  {
    var d := DayOfHour(hour);
    var dt, h := Four(d.year) + "-" + Two(d.month) + "-" + Two(d.day), Two(hour % 24);
    Heads(prefix, "tenant=" + tenant);
    FiveMore(Top(prefix, "tenant=" + tenant), Base(prefix) + ("tenant=" + tenant),
             "cluster=" + cluster, "dt=" + dt, "hour=" + h, source, "");
    ColdFlat(Base(prefix), tenant, cluster, dt, h, source);
    ColdStampIs(Four(d.year), Two(d.month), Two(d.day), h);
  }

  lemma DatePlain(hour: nat)
    requires FourDigitYear(hour)
    ensures var d := DayOfHour(hour);
      '/' !in "dt=" + (Four(d.year) + "-" + Two(d.month) + "-" + Two(d.day)) && '/' !in "hour=" + Two(hour % 24)
  {
    var d := DayOfHour(hour);
    NumbersPlain(d.year);
    NumbersPlain(d.month);
    NumbersPlain(d.day);
    NumbersPlain(hour % 24);
  }

  /** Reading a cold-storage key: prefix, tenant, cluster, date, hour and source, in this order. */
  lemma ColdKeyReads(prefix: string, source: string, tenant: string, cluster: string, hour: nat)
    requires FourDigitYear(hour) && '/' !in prefix && '/' !in source && '/' !in tenant && '/' !in cluster
    ensures Split(ColdPrefix(prefix, source, tenant, cluster, hour), '/') == ColdDirs(prefix, source, tenant, cluster, hour)
  {
    var d := DayOfHour(hour);
    DatePlain(hour);
    PlainTop(prefix, "tenant=" + tenant);
    PlainFive(Top(prefix, "tenant=" + tenant), "cluster=" + cluster,
              "dt=" + (Four(d.year) + "-" + Two(d.month) + "-" + Two(d.day)), "hour=" + Two(hour % 24), source, "");
    ColdJoined(prefix, source, tenant, cluster, hour);
    SplitJoin(ColdDirs(prefix, source, tenant, cluster, hour), '/');
  }

  lemma ColdStampInjective(h: nat, k: nat)
    requires FourDigitYear(h) && FourDigitYear(k) && ColdStamp(h) == ColdStamp(k)
    ensures h == k
  {
    ColdStampSpells(h);
    ColdStampSpells(k);
    SpelledHour(ColdStamp(h), h, k, [4, 9, 12, 20]);
  }

  lemma ColdStampSpells(h: nat)
    requires FourDigitYear(h)
    ensures SpellsHour(ColdStamp(h), h, [4, 9, 12, 20])
  {
    var d := DayOfHour(h);
    var s := ColdStamp(h);
    assert s[4..8] == Four(d.year);
    assert s[9..11] == Two(d.month);
    assert s[12..14] == Two(d.day);
    assert s[20..22] == Two(h % 24);
  }

  lemma LastSlash(x: string, a: string, y: string, b: string)
    requires '/' !in b && x + "/" + a + "/" == y + "/" + b + "/"
    ensures |x| <= |y|
  {
    var t := y + "/" + b + "/";
    assert t == x + "/" + a + "/" && t[|x|] == '/';
  }

  /** The last slash-free piece before a closing slash can be read off the end. */
  lemma LastPiece(x: string, a: string, y: string, b: string)
    requires '/' !in a && '/' !in b && x + "/" + a + "/" == y + "/" + b + "/"
    ensures x == y && a == b
  {
    var s, t := x + "/" + a + "/", y + "/" + b + "/";
    assert |s| == |x| + |a| + 2 && |t| == |y| + |b| + 2;
    assert s[|x|] == '/' && t[|y|] == '/';
    LastSlash(x, a, y, b);
    LastSlash(y, b, x, a);
    assert s[..|x|] == x && t[..|y|] == y;
    assert s[|x| + 1..|s| - 1] == a && t[|y| + 1..|t| - 1] == b;
  }

  /** With slash-free tenants and sources the cold-storage layout separates windows, even if
      cluster names have slashes. */
  lemma ColdKeysSeparate(prefix: string, src: string, t: string, c: string, h: nat,
                         src': string, t': string, c': string, h': nat)
    requires FourDigitYear(h) && FourDigitYear(h') && '/' !in src && '/' !in src' && '/' !in t && '/' !in t'
    requires ColdPrefix(prefix, src, t, c, h) == ColdPrefix(prefix, src', t', c', h')
    ensures src == src' && t == t' && c == c' && h == h'
  {
    var a := Base(prefix) + "tenant=";
    var b, b' := t + "/cluster=" + c, t' + "/cluster=" + c';
    LastPiece(a + b + ColdStamp(h), src, a + b' + ColdStamp(h'), src');
    assert a + b + "" == a + b && a + b' + "" == a + b';
    assert a + b + "" + ColdStamp(h) == a + b' + "" + ColdStamp(h');
    Middle(a, b, ColdStamp(h), b', ColdStamp(h'), "");
    ColdStampInjective(h, h');
    SplitAtFirst(t, c, t', c', "/cluster=");
  }

  function TenantCluster(t: string, c: string): string { t + "/cluster=" + c }

  lemma FragmentsMeet(t: string, t': string)
    requires t != t'
    ensures (exists c, c' :: TenantCluster(t, c) == TenantCluster(t', c'))
            <==> t + "/cluster=" <= t' || t' + "/cluster=" <= t
  {
    if c, c' :| TenantCluster(t, c) == TenantCluster(t', c') {
      HeadsClash(t, c, t', c', "/cluster=");
    }
    if t + "/cluster=" <= t' {
      var c := t'[|t| + 9..] + "/cluster=";
      assert TenantCluster(t, c) == TenantCluster(t', "");
    }
    if t' + "/cluster=" <= t {
      var c := t[|t'| + 9..] + "/cluster=";
      assert TenantCluster(t, "") == TenantCluster(t', c);
    }
  }

  lemma Framed(a: string, x: string, y: string, b: string)
    ensures a + x + b == a + y + b <==> x == y
  {
    if a + x + b == a + y + b {
      assert |x| == |y|;
      assert (a + x + b)[|a|..|a| + |x|] == x && (a + y + b)[|a|..|a| + |y|] == y;
    }
  }

  lemma FragmentDecides(prefix: string, src: string, t: string, c: string, t': string, c': string, h: nat)
    requires FourDigitYear(h)
    ensures ColdPrefix(prefix, src, t, c, h) == ColdPrefix(prefix, src, t', c', h)
            <==> TenantCluster(t, c) == TenantCluster(t', c')
  {
    var a, b := Base(prefix) + "tenant=", ColdStamp(h) + "/" + src + "/";
    var x, y := TenantCluster(t, c), TenantCluster(t', c');
    Framed(a, x, y, b);
    assert ColdPrefix(prefix, src, t, c, h) == a + x + b && ColdPrefix(prefix, src, t', c', h) == a + y + b;
  }

  /** Two tenants can meet in one cold-storage key exactly when one of them, followed by
      "/cluster=", starts the other. */
  lemma ColdTenantsMeet(prefix: string, src: string, t: string, t': string, h: nat)
    requires t != t' && FourDigitYear(h)
    ensures (exists c, c' :: ColdPrefix(prefix, src, t, c, h) == ColdPrefix(prefix, src, t', c', h))
            <==> t + "/cluster=" <= t' || t' + "/cluster=" <= t
  {
    FragmentsMeet(t, t');
    if c, c' :| ColdPrefix(prefix, src, t, c, h) == ColdPrefix(prefix, src, t', c', h) {
      FragmentDecides(prefix, src, t, c, t', c', h);
    }
    if c, c' :| TenantCluster(t, c) == TenantCluster(t', c') {
      FragmentDecides(prefix, src, t, c, t', c', h);
    }
  }

  // ----- the three objects of a window -----

  /** Object names of one window are told apart by what follows the last slash. */
  lemma NamedObjectsSeparate(x: string, name: string, y: string, name': string)
    requires '/' !in name && '/' !in name' && x + "/" + name == y + "/" + name'
    ensures x == y && name == name'
  {
    assert x + "/" + name + "/" == y + "/" + name' + "/";
    LastPiece(x, name, y, name');
  }
}
