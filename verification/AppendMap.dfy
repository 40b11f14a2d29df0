/** Building a map of files by appending block after block (`files[name] += block`), in whatever order
    the blocks come: what each file holds, and exactly when the order does not matter. */
module AppendMap {
  import opened Text

  function Append(files: map<string, string>, file: string, block: string): map<string, string> {
    files[file := (if file in files then files[file] else "") + block]
  }

  /** The files once the blocks of all groups have been appended in this order. */
  function FilesIn<G>(name: G -> string, block: G -> string, order: seq<G>): map<string, string> {
    if |order| == 0 then map[]
    else
      var n := |order| - 1;
      Append(FilesIn(name, block, order[..n]), name(order[n]), block(order[n]))
  }

  /** What a file holds: the blocks of the groups of that name, one after the other. */
  function Content<G>(name: G -> string, block: G -> string, order: seq<G>, file: string): string {
    if |order| == 0 then ""
    else
      var n := |order| - 1;
      Content(name, block, order[..n], file) + if name(order[n]) == file then block(order[n]) else ""
  }

  lemma {:induction false} FilesAt<G>(name: G -> string, block: G -> string, order: seq<G>, file: string)
    ensures file in FilesIn(name, block, order) <==> exists i :: 0 <= i < |order| && name(order[i]) == file
    ensures file in FilesIn(name, block, order) ==> FilesIn(name, block, order)[file] == Content(name, block, order, file)
    ensures file !in FilesIn(name, block, order) ==> Content(name, block, order, file) == ""
  {
    if |order| > 0 {
      var n := |order| - 1;
      FilesAt(name, block, order[..n], file);
      assert forall i :: 0 <= i < n ==> order[..n][i] == order[i];
    }
  }

  lemma {:induction false} ContentConcat<G>(name: G -> string, block: G -> string, a: seq<G>, b: seq<G>, file: string)
    ensures Content(name, block, a + b, file) == Content(name, block, a, file) + Content(name, block, b, file)
  {
    if b == [] {
      assert a + b == a;
    } else {
      var n := |b| - 1;
      assert (a + b)[..|a| + n] == a + b[..n] && (a + b)[|a| + n] == b[n];
      ContentConcat(name, block, a, b[..n], file);
    }
  }

  lemma ContentOne<G>(name: G -> string, block: G -> string, g: G, file: string)
    ensures Content(name, block, [g], file) == if name(g) == file then block(g) else ""
  {
    assert [g][..0] == [];
  }

  /** The blocks that share a file commute. */
  ghost predicate Harmless<G(!new)>(name: G -> string, block: G -> string, groups: set<G>) {
    forall a, b :: a in groups && b in groups && name(a) == name(b) ==> block(a) + block(b) == block(b) + block(a)
  }

  lemma Swap(x: string, c: string, y: string)
    requires x + c == c + x && x + y == y + x
    ensures x + (c + y) == (c + y) + x
  {
    assert x + (c + y) == (x + c) + y;
    assert (c + x) + y == c + (x + y);
    assert c + (y + x) == (c + y) + x;
  }

  /** A block commutes with what its file holds of other groups. */
  lemma {:induction false} BlockPasses<G(!new)>(name: G -> string, block: G -> string, groups: set<G>, g: G, rest: seq<G>)
    requires Harmless(name, block, groups) && g in groups && forall i :: 0 <= i < |rest| ==> rest[i] in groups
    ensures block(g) + Content(name, block, rest, name(g)) == Content(name, block, rest, name(g)) + block(g)
  {
    if rest != [] {
      var n := |rest| - 1;
      BlockPasses(name, block, groups, g, rest[..n]);
      var c := Content(name, block, rest[..n], name(g));
      if name(rest[n]) == name(g) { Swap(block(g), c, block(rest[n])); } else { assert c + "" == c; }
    }
  }

  lemma Pass(x: string, u: string, y: string)
    requires u + y == y + u
    ensures x + u + y == x + y + u
  {
    assert x + u + y == x + (u + y);
    assert x + (y + u) == x + y + u;
  }

  lemma Middle<G>(name: G -> string, block: G -> string, a: seq<G>, g: G, b: seq<G>, file: string)
    ensures Content(name, block, a + [g] + b, file) ==
            Content(name, block, a, file) + (if name(g) == file then block(g) else "") + Content(name, block, b, file)
  {
    ContentConcat(name, block, a + [g], b, file);
    ContentConcat(name, block, a, [g], file);
    ContentOne(name, block, g, file);
  }

  /** Taking a group out of the middle and putting it at the end. */
  lemma MovedLast<G(!new)>(name: G -> string, block: G -> string, groups: set<G>, a: seq<G>, g: G, b: seq<G>, file: string)
    requires Harmless(name, block, groups) && g in groups && forall i :: 0 <= i < |b| ==> b[i] in groups
    ensures Content(name, block, a + [g] + b, file) == Content(name, block, a + b + [g], file)
  {
    var x, y := Content(name, block, a, file), Content(name, block, b, file);
    Middle(name, block, a, g, b, file);
    Middle(name, block, a + b, g, [], file);
    ContentConcat(name, block, a, b, file);
    assert a + b + [g] + [] == a + b + [g];
    if name(g) == file {
      BlockPasses(name, block, groups, g, b);
      Pass(x, block(g), y);
    } else {
      assert x + "" + y == x + y + "";
    }
  }

  lemma {:induction false} ContentOrderFree<G(!new)>(name: G -> string, block: G -> string, groups: set<G>,
                                               order: seq<G>, order': seq<G>, file: string)
    requires Harmless(name, block, groups) && Walk(order, groups) && Walk(order', groups)
    ensures Content(name, block, order, file) == Content(name, block, order', file)
    decreases |order'|
  {
    if order' == [] {
      WalkEmpty(order, groups);
      WalkEmpty(order', groups);
    } else {
      var n := |order'| - 1;
      var g := order'[n];
      assert g in Elements(order') && g in Elements(order);
      var i :| 0 <= i < |order| && order[i] == g;
      var a, b := order[..i], order[i + 1..];
      forall j | 0 <= j < |b| ensures b[j] in groups { assert order[i + 1 + j] in Elements(order); }
      MovedLast(name, block, groups, a, g, b, file);
      assert order == a + [g] + b;
      WalkWithout(order, groups, i);
      WalkWithout(order', groups, n);
      assert order'[..n] + order'[n + 1..] == order'[..n];
      ContentOrderFree(name, block, groups - {g}, a + b, order'[..n], file);
      assert (a + b + [g])[..|a + b|] == a + b;
    }
  }

  lemma FilesOrderFree<G(!new)>(name: G -> string, block: G -> string, groups: set<G>, order: seq<G>, order': seq<G>)
    requires Harmless(name, block, groups) && Walk(order, groups) && Walk(order', groups)
    ensures FilesIn(name, block, order) == FilesIn(name, block, order')
  {
    var f, f' := FilesIn(name, block, order), FilesIn(name, block, order');
    forall file ensures file in f <==> file in f'
      ensures file in f ==> f[file] == f'[file]
    {
      FilesAt(name, block, order, file);
      FilesAt(name, block, order', file);
      ContentOrderFree(name, block, groups, order, order', file);
      NamesAgree(name, groups, order, order', file);
      NamesAgree(name, groups, order', order, file);
    }
  }

  lemma NamesAgree<G>(name: G -> string, groups: set<G>, order: seq<G>, order': seq<G>, file: string)
    requires Walk(order, groups) && Walk(order', groups)
    ensures (exists i :: 0 <= i < |order| && name(order[i]) == file) ==> exists i :: 0 <= i < |order'| && name(order'[i]) == file
  {
    if i :| 0 <= i < |order| && name(order[i]) == file {
      assert order[i] in Elements(order) && order[i] in Elements(order');
      var j :| 0 <= j < |order'| && order'[j] == order[i];
    }
  }

  /** Two groups of one file whose blocks do not commute: their order shows in the file. */
  lemma OrderShows<G>(name: G -> string, block: G -> string, groups: set<G>, x: G, y: G)
    returns (order: seq<G>, order': seq<G>)
    requires x in groups && y in groups && name(x) == name(y) && block(x) + block(y) != block(y) + block(x)
    ensures Walk(order, groups) && Walk(order', groups) && FilesIn(name, block, order) != FilesIn(name, block, order')
  {
    var rest := WalkEnding(groups, x, y);
    order, order' := rest + [x] + [y], rest + [y] + [x];
    var file, c := name(x), Content(name, block, rest, name(x));
    LastTwo(name, block, rest, x, y);
    LastTwo(name, block, rest, y, x);
    FilesAt(name, block, order, file);
    FilesAt(name, block, order', file);
    assert name(order[|rest|]) == file && name(order'[|rest|]) == file;
    assert (c + (block(x) + block(y)))[|c|..] == block(x) + block(y);
    assert (c + (block(y) + block(x)))[|c|..] == block(y) + block(x);
  }

  lemma LastTwo<G>(name: G -> string, block: G -> string, rest: seq<G>, x: G, y: G)
    requires name(x) == name(y)
    ensures Content(name, block, rest + [x] + [y], name(x)) == Content(name, block, rest, name(x)) + (block(x) + block(y))
  {
    ContentConcat(name, block, rest + [x], [y], name(x));
    ContentConcat(name, block, rest, [x], name(x));
    ContentOne(name, block, x, name(x));
    ContentOne(name, block, y, name(x));
  }

  ghost predicate OrderFree<G(!new)>(name: G -> string, block: G -> string, groups: set<G>) {
    forall order, order' :: Walk(order, groups) && Walk(order', groups) ==>
      FilesIn(name, block, order) == FilesIn(name, block, order')
  }

  /** The files are the same for every order exactly when blocks that share a file commute. */
  lemma OrderFreeExactly<G(!new)>(name: G -> string, block: G -> string, groups: set<G>)
    ensures OrderFree(name, block, groups) <==> Harmless(name, block, groups)
  {
    if Harmless(name, block, groups) {
      forall order, order' | Walk(order, groups) && Walk(order', groups)
        ensures FilesIn(name, block, order) == FilesIn(name, block, order')
      {
        FilesOrderFree(name, block, groups, order, order');
      }
    } else {
      var x, y :| x in groups && y in groups && name(x) == name(y) && block(x) + block(y) != block(y) + block(x);
      var order, order' := OrderShows(name, block, groups, x, y);
    }
  }

  /** No two groups share a file. */
  ghost predicate Apart<G(!new)>(name: G -> string, groups: set<G>) {
    forall a, b :: a in groups && b in groups && name(a) == name(b) ==> a == b
  }

  lemma ContentOnly<G>(name: G -> string, block: G -> string, a: seq<G>, g: G, b: seq<G>)
    requires forall j :: 0 <= j < |a| ==> name(a[j]) != name(g)
    requires forall j :: 0 <= j < |b| ==> name(b[j]) != name(g)
    ensures Content(name, block, a + [g] + b, name(g)) == block(g)
  {
    ContentNone(name, block, a, name(g));
    ContentNone(name, block, b, name(g));
    Middle(name, block, a, g, b, name(g));
    assert "" + block(g) + "" == block(g);
  }

  /** Where no two groups share a file, each file is the block of its group. */
  lemma FilesApart<G(!new)>(name: G -> string, block: G -> string, groups: set<G>, order: seq<G>, g: G)
    requires Apart(name, groups) && Walk(order, groups) && g in groups
    ensures name(g) in FilesIn(name, block, order) && FilesIn(name, block, order)[name(g)] == block(g)
  {
    assert g in Elements(order);
    var i :| 0 <= i < |order| && order[i] == g;
    forall j | 0 <= j < |order| && j != i ensures name(order[j]) != name(g) { assert order[j] in Elements(order); }
    var a, b := order[..i], order[i + 1..];
    assert order == a + [g] + b;
    assert forall j :: 0 <= j < |b| ==> b[j] == order[i + 1 + j];
    ContentOnly(name, block, a, g, b);
    FilesAt(name, block, order, name(g));
  }

  lemma {:induction false} ContentNone<G>(name: G -> string, block: G -> string, order: seq<G>, file: string)
    requires forall i :: 0 <= i < |order| ==> name(order[i]) != file
    ensures Content(name, block, order, file) == ""
  {
    if order != [] { ContentNone(name, block, order[..|order| - 1], file); }
  }
}
