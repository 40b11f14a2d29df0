/** Strings as the exporter and the controllers use them: the order of `sort.Strings`,
    sorted listings of key sets, and the split/join pair behind comma- and dot-joined names. */
module Text {

  datatype Option<+T> = None | Some(value: T)

  // ----- the order of sort.Strings -----

  /** Strict lexicographic order on strings. */
  predicate Less(a: string, b: string) {
    if b == "" then false
    else if a == "" then true
    else a[0] < b[0] || (a[0] == b[0] && Less(a[1..], b[1..]))
  }

  lemma {:induction false} LessIrreflexive(a: string)
    ensures !Less(a, a)
  {
    if a != "" { LessIrreflexive(a[1..]); }
  }

  lemma {:induction false} LessTransitive(a: string, b: string, c: string)
    requires Less(a, b) && Less(b, c)
    ensures Less(a, c)
  {
    if a != "" && a[0] == b[0] && b[0] == c[0] {
      LessTransitive(a[1..], b[1..], c[1..]);
    }
  }

  lemma {:induction false} LessTotal(a: string, b: string)
    ensures a == b || Less(a, b) || Less(b, a)
  {
    if a != "" && b != "" && a[0] == b[0] {
      LessTotal(a[1..], b[1..]);
      assert a == [a[0]] + a[1..] && b == [b[0]] + b[1..];
    }
  }

  /** What the order means: at the first character in which they differ, or where one of them ends,
      `a` has the smaller character, or ends. */
  ghost predicate ComesBefore(a: string, b: string) {
    exists i :: Parts(a, b, i)
  }

  predicate Parts(a: string, b: string, i: nat) {
    i <= |a| && i < |b| && a[..i] == b[..i] && (i == |a| || a[i] < b[i])
  }

  lemma {:induction false} LessParts(a: string, b: string) returns (i: nat)
    requires Less(a, b)
    ensures Parts(a, b, i)
  {
    i := 0;
    if a != "" && a[0] == b[0] {
      i := LessParts(a[1..], b[1..]);
      i := i + 1;
      assert a[..i] == [a[0]] + a[1..][..i - 1] && b[..i] == [b[0]] + b[1..][..i - 1];
    }
  }

  lemma {:induction false} PartsLess(a: string, b: string, i: nat)
    requires Parts(a, b, i)
    ensures Less(a, b)
  {
    if i > 0 {
      assert a[0] == a[..i][0] == b[..i][0] == b[0];
      assert a[1..][..i - 1] == a[..i][1..] && b[1..][..i - 1] == b[..i][1..];
      PartsLess(a[1..], b[1..], i - 1);
    }
  }

  lemma LessMeans(a: string, b: string)
    ensures Less(a, b) <==> ComesBefore(a, b)
  {
    if Less(a, b) { var i := LessParts(a, b); }
    if i: nat :| Parts(a, b, i) { PartsLess(a, b, i); }
  }

  // ----- sorted listings of a set of keys -----

  ghost predicate Increasing(s: seq<string>) {
    forall i, j :: 0 <= i < j < |s| ==> Less(s[i], s[j])
  }

  function Elements<T>(s: seq<T>): set<T> {
    set x | x in s
  }

  /** An order in which each of the items comes once, as a walk over a map takes them. */
  ghost predicate Walk<T>(order: seq<T>, items: set<T>) {
    Elements(order) == items && forall i, j :: 0 <= i < j < |order| ==> order[i] != order[j]
  }

  lemma WalkSnoc<T>(order: seq<T>, items: set<T>, x: T)
    requires Walk(order, items) && x !in items
    ensures Walk(order + [x], items + {x})
  {
    var more := order + [x];
    forall i, j | 0 <= i < j < |more| ensures more[i] != more[j] { assert more[i] in Elements(order); }
    assert more[|order|] == x;
    forall y | y in items + {x} ensures y in more { if y != x { assert y in order; } }
  }

  lemma {:induction false} SomeWalk<T>(items: set<T>) returns (order: seq<T>)
    ensures Walk(order, items)
  {
    order := [];
    if items != {} {
      var x :| x in items;
      order := SomeWalk(items - {x});
      WalkSnoc(order, items - {x}, x);
      assert items - {x} + {x} == items;
      order := order + [x];
    }
  }

  /** A walk that starts in any way and ends with two given items, in either order. */
  lemma WalkEnding<T>(items: set<T>, x: T, y: T) returns (rest: seq<T>)
    requires x in items && y in items && x != y
    ensures Walk(rest + [x] + [y], items) && Walk(rest + [y] + [x], items)
  {
    rest := SomeWalk(items - {x, y});
    WalkSnoc(rest, items - {x, y}, x);
    WalkSnoc(rest + [x], items - {x, y} + {x}, y);
    WalkSnoc(rest, items - {x, y}, y);
    WalkSnoc(rest + [y], items - {x, y} + {y}, x);
    assert items - {x, y} + {x} + {y} == items == items - {x, y} + {y} + {x};
  }

  lemma WalkEmpty<T>(order: seq<T>, items: set<T>)
    requires Walk(order, items)
    ensures |order| == 0 <==> items == {}
  {
    if |order| > 0 { assert order[0] in Elements(order); }
  }

  lemma WalkWithout<T>(order: seq<T>, items: set<T>, i: nat)
    requires Walk(order, items) && i < |order|
    ensures Walk(order[..i] + order[i + 1..], items - {order[i]})
  {
    var rest := order[..i] + order[i + 1..];
    forall j, k | 0 <= j < k < |rest| ensures rest[j] != rest[k] {
      assert rest[j] == order[if j < i then j else j + 1] && rest[k] == order[if k < i then k else k + 1];
    }
    forall x | x in rest ensures x in items - {order[i]} {
      var j :| 0 <= j < |rest| && rest[j] == x;
      assert x == order[if j < i then j else j + 1];
      assert x in Elements(order);
    }
    forall x | x in items - {order[i]} ensures x in rest {
      assert x in Elements(order);
      var j :| 0 <= j < |order| && order[j] == x;
      assert rest[if j < i then j else j - 1] == x;
    }
  }

  /** `s` lists exactly `keys`, in increasing order. */
  ghost predicate Lists(s: seq<string>, keys: set<string>) {
    Increasing(s) && Elements(s) == keys
  }

  lemma IncreasingDistinct(s: seq<string>, i: nat, j: nat)
    requires Increasing(s) && i < |s| && j < |s| && s[i] == s[j]
    ensures i == j
  {
    LessIrreflexive(s[i]);
  }

  lemma ListsEmpty(s: seq<string>, keys: set<string>)
    requires Lists(s, keys)
    ensures s == [] <==> keys == {}
  {
    if s != [] { assert s[0] in Elements(s); }
  }

  lemma ListsHead(s: seq<string>, keys: set<string>)
    requires Lists(s, keys) && s != []
    ensures s[0] in keys && forall k :: k in keys && k != s[0] ==> Less(s[0], k)
    ensures Lists(s[1..], keys - {s[0]})
  {
    var rest := s[1..];
    assert s[0] in Elements(s);
    forall k | k in keys && k != s[0] ensures Less(s[0], k) && k in rest {
      assert k in Elements(s);
      var i :| 0 <= i < |s| && s[i] == k;
      assert rest[i - 1] == k;
    }
    if s[0] in rest {
      var i :| 0 <= i < |rest| && rest[i] == s[0];
      IncreasingDistinct(s, 0, i + 1);
    }
    forall k | k in Elements(rest) ensures k in keys - {s[0]} {
      var i :| 0 <= i < |rest| && rest[i] == k;
      assert s[i + 1] in Elements(s);
    }
  }

  /** A set of keys has only one increasing listing, so a sorted listing cannot depend
      on the order in which a map was walked. */
  lemma {:induction false} ListingUnique(s: seq<string>, t: seq<string>, keys: set<string>)
    requires Lists(s, keys) && Lists(t, keys)
    ensures s == t
    decreases |s|
  {
    ListsEmpty(s, keys);
    ListsEmpty(t, keys);
    if s != [] {
      ListsHead(s, keys);
      ListsHead(t, keys);
      if s[0] != t[0] {
        LessTransitive(s[0], t[0], s[0]);
        LessIrreflexive(s[0]);
      }
      ListingUnique(s[1..], t[1..], keys - {s[0]});
      assert s == [s[0]] + s[1..] && t == [t[0]] + t[1..];
    }
  }

  /** Puts `k` in its place in an increasing sequence. */
  function Insert(s: seq<string>, k: string): seq<string> {
    if s == [] || Less(k, s[0]) then [k] + s else [s[0]] + Insert(s[1..], k)
  }

  lemma {:induction false} InsertElements(s: seq<string>, k: string)
    ensures Elements(Insert(s, k)) == Elements(s) + {k}
    ensures |Insert(s, k)| == |s| + 1
  {
    if s == [] || Less(k, s[0]) {
      assert Elements([k] + s) == Elements(s) + {k};
    } else {
      InsertElements(s[1..], k);
      assert s == [s[0]] + s[1..];
      assert Elements([s[0]] + Insert(s[1..], k)) == {s[0]} + Elements(Insert(s[1..], k));
      assert Elements(s) == {s[0]} + Elements(s[1..]);
    }
  }

  lemma {:induction false} InsertIncreasing(s: seq<string>, k: string)
    requires Increasing(s) && k !in s
    ensures Increasing(Insert(s, k))
  {
    if s == [] {
    } else if Less(k, s[0]) {
      forall j | 0 <= j < |s| ensures Less(k, s[j]) {
        if j > 0 { LessTransitive(k, s[0], s[j]); }
      }
      assert Insert(s, k) == [k] + s;
    } else {
      InsertIncreasing(s[1..], k);
      InsertElements(s[1..], k);
      var t := Insert(s[1..], k);
      LessTotal(k, s[0]);
      forall j | 0 <= j < |t| ensures Less(s[0], t[j]) {
        assert t[j] in Elements(t);
        if t[j] != k {
          assert t[j] in s[1..];
          var i :| 0 <= i < |s[1..]| && s[1..][i] == t[j];
          assert s[i + 1] == t[j];
        }
      }
      assert Insert(s, k) == [s[0]] + t;
    }
  }

  /** The increasing listing of a finite set of strings. */
  ghost function Listing(keys: set<string>): (s: seq<string>)
    ensures Lists(s, keys)
    decreases |keys|
  {
    if keys == {} then [] else
      var k :| k in keys;
      var t := Listing(keys - {k});
      assert k !in t by { assert k !in Elements(t); }
      InsertElements(t, k);
      InsertIncreasing(t, k);
      assert Elements(t) + {k} == keys;
      Insert(t, k)
  }

  /** Each string comes before all that follow it. */
  ghost predicate Ascending(s: seq<string>) {
    forall i, j :: 0 <= i < j < |s| ==> ComesBefore(s[i], s[j])
  }

  lemma IncreasingMeans(s: seq<string>)
    ensures Increasing(s) <==> Ascending(s)
  {
    forall i, j | 0 <= i < j < |s| ensures Less(s[i], s[j]) <==> ComesBefore(s[i], s[j]) { LessMeans(s[i], s[j]); }
  }

  lemma AscendingIsListing(s: seq<string>, keys: set<string>)
    requires Ascending(s) && Elements(s) == keys
    ensures s == Listing(keys)
  {
    IncreasingMeans(s);
    ListingUnique(s, Listing(keys), keys);
  }

  /** Collecting the keys of a map in any iteration order and sorting them:
      the result is the one increasing listing. */
  method SortKeys(keys: set<string>) returns (out: seq<string>)
    ensures out == Listing(keys)
    ensures Elements(out) == keys && Ascending(out)
  {
    out := [];
    var todo := keys;
    while todo != {}
      invariant todo <= keys
      invariant Lists(out, keys - todo)
      decreases |todo|
    {
      var k :| k in todo;
      assert k !in out by { assert k !in Elements(out); }
      InsertElements(out, k);
      InsertIncreasing(out, k);
      out := Insert(out, k);
      assert keys - (todo - {k}) == (keys - todo) + {k};
      todo := todo - {k};
    }
    assert keys - todo == keys;
    ListingUnique(out, Listing(keys), keys);
    IncreasingMeans(out);
  }

  // ----- strings.Split and strings.Join on one separator character -----

  /** strings.Join with a one-character separator. */
  function Join(parts: seq<string>, sep: char): string {
    if parts == [] then ""
    else if |parts| == 1 then parts[0]
    else parts[0] + [sep] + Join(parts[1..], sep)
  }

  /** One more part comes after one more separator. */
  lemma {:induction false} JoinSnoc(parts: seq<string>, last: string, sep: char)
    ensures Join(parts + [last], sep) == if parts == [] then last else Join(parts, sep) + [sep] + last
  {
    if parts == [] {
      assert parts + [last] == [last];
    } else {
      assert (parts + [last])[1..] == parts[1..] + [last];
      JoinSnoc(parts[1..], last, sep);
    }
  }

  /** strings.Split with a one-character separator. */
  function Split(s: string, sep: char): (parts: seq<string>)
    ensures |parts| >= 1
    ensures forall i :: 0 <= i < |parts| ==> sep !in parts[i]
  {
    if s == "" then [""]
    else
      var rest := Split(s[1..], sep);
      if s[0] == sep then [""] + rest
      else [[s[0]] + rest[0]] + rest[1..]
  }

  lemma {:induction false} SplitCons(a: string, s: string, sep: char)
    requires sep !in a
    ensures Split(a + s, sep) == [a + Split(s, sep)[0]] + Split(s, sep)[1..]
  {
    if a == "" {
      assert a + s == s;
      assert a + Split(s, sep)[0] == Split(s, sep)[0];
    } else {
      SplitCons(a[1..], s, sep);
      assert (a + s)[1..] == a[1..] + s;
      assert a[0] in a;
      assert [a[0]] + (a[1..] + Split(s, sep)[0]) == a + Split(s, sep)[0];
    }
  }

  /** Splitting a joined list gives the list back when no part holds the separator. */
  lemma {:induction false} SplitJoin(parts: seq<string>, sep: char)
    requires |parts| >= 1
    requires forall i :: 0 <= i < |parts| ==> sep !in parts[i]
    ensures Split(Join(parts, sep), sep) == parts
  {
    if |parts| == 1 {
      SplitCons(parts[0], "", sep);
      assert parts[0] + "" == parts[0];
    } else {
      SplitJoin(parts[1..], sep);
      var tail := [sep] + Join(parts[1..], sep);
      assert parts[0] + [sep] + Join(parts[1..], sep) == parts[0] + tail;
      assert tail[1..] == Join(parts[1..], sep);
      SplitCons(parts[0], tail, sep);
      assert parts[0] + "" == parts[0];
    }
  }

  /** Joining what was split gives the string back, so splitting is injective. */
  lemma {:induction false} JoinSplit(s: string, sep: char)
    ensures Join(Split(s, sep), sep) == s
  {
    if s != "" {
      var rest := Split(s[1..], sep);
      JoinSplit(s[1..], sep);
      if s[0] == sep {
        assert ([""] + rest)[1..] == rest;
        assert "" + [sep] + s[1..] == s;
      } else {
        var all := [[s[0]] + rest[0]] + rest[1..];
        assert all[1..] == rest[1..];
        if |rest| == 1 {
          assert s == [s[0]] + rest[0];
        } else {
          assert s == [s[0]] + (rest[0] + [sep] + Join(rest[1..], sep));
        }
      }
    }
  }
}
