/** The storage-node arguments of a cluster (`buildStorageNodeConfig`, `setArg`, `secretKeyPath`):
    five positional comma-joined lists rebuilt from the active connections. */
module StorageArgs {
  import opened Text

  datatype Node = Node(
    address: string, secret: string, usernameKey: string, passwordKey: string, tls: bool, insecure: bool)

  datatype Arg = Address | UsernameFile | PasswordFile | Tls | TlsInsecure

  function ArgKey(a: Arg): string {
    match a
    case Address => "storageNode"
    case UsernameFile => "storageNode.usernameFile"
    case PasswordFile => "storageNode.passwordFile"
    case Tls => "storageNode.tls"
    case TlsInsecure => "storageNode.tlsInsecureSkipVerify"
  }

  const OWNED: set<string> := set a: Arg :: ArgKey(a)

  lemma ArgKeysDistinct(a: Arg, b: Arg)
    requires ArgKey(a) == ArgKey(b)
    ensures a == b
  {
    assert |ArgKey(Address)| == 11 && |ArgKey(UsernameFile)| == 24 && |ArgKey(PasswordFile)| == 24;
    assert |ArgKey(Tls)| == 15 && |ArgKey(TlsInsecure)| == 33;
    assert ArgKey(UsernameFile)[12] == 'u' && ArgKey(PasswordFile)[12] == 'p';
  }

  /** secretKeyPath: an empty key leaves a positional placeholder. */
  function SecretKeyPath(secret: string, key: string): string {
    if key == "" then "" else "/etc/vm/secrets/" + secret + "/" + key
  }

  function FormatBool(b: bool): string { if b then "true" else "false" }

  function FieldOf(a: Arg, n: Node): string {
    match a
    case Address => n.address
    case UsernameFile => SecretKeyPath(n.secret, n.usernameKey)
    case PasswordFile => SecretKeyPath(n.secret, n.passwordKey)
    case Tls => FormatBool(n.tls)
    case TlsInsecure => FormatBool(n.insecure)
  }

  function Column(a: Arg, nodes: seq<Node>): (c: seq<string>)
    ensures |c| == |nodes|
  {
    seq(|nodes|, i requires 0 <= i < |nodes| => FieldOf(a, nodes[i]))
  }

  predicate AllEmpty(values: seq<string>) { forall i :: 0 <= i < |values| ==> values[i] == "" }

  type Args = map<string, string>

  function WithArg(args: Args, key: string, values: seq<string>): Args {
    if AllEmpty(values) then args else args[key := Join(values, ',')]
  }

  /** The arguments rebuilt from the active nodes: what is not owned stays. */
  function Build(nodes: seq<Node>, existing: Args): Args {
    var a0 := existing - OWNED;
    var a1 := WithArg(a0, ArgKey(Address), Column(Address, nodes));
    var a2 := WithArg(a1, ArgKey(UsernameFile), Column(UsernameFile, nodes));
    var a3 := WithArg(a2, ArgKey(PasswordFile), Column(PasswordFile, nodes));
    var a4 := WithArg(a3, ArgKey(Tls), Column(Tls, nodes));
    WithArg(a4, ArgKey(TlsInsecure), Column(TlsInsecure, nodes))
  }

  function SecretNames(nodes: seq<Node>): set<string> {
    set i | 0 <= i < |nodes| && nodes[i].secret != "" :: nodes[i].secret
  }

  // ----- what the arguments say -----

  lemma WithArgAt(args: Args, key: string, values: seq<string>, k: string)
    ensures k != key ==> (k in WithArg(args, key, values) <==> k in args)
    ensures k != key && k in args ==> WithArg(args, key, values)[k] == args[k]
    ensures !AllEmpty(values) ==> key in WithArg(args, key, values) && WithArg(args, key, values)[key] == Join(values, ',')
    ensures AllEmpty(values) ==> WithArg(args, key, values) == args
  {}

  /** Every argument of the result, owned or not. */
  lemma BuildAt(nodes: seq<Node>, existing: Args, a: Arg)
    ensures ArgKey(a) in Build(nodes, existing) <==> !AllEmpty(Column(a, nodes))
    ensures ArgKey(a) in Build(nodes, existing) ==> Build(nodes, existing)[ArgKey(a)] == Join(Column(a, nodes), ',')
  {
    forall b: Arg | ArgKey(b) == ArgKey(a) ensures b == a { ArgKeysDistinct(b, a); }
    var k := ArgKey(a);
    assert k in OWNED;
    var a0 := existing - OWNED;
    WithArgAt(a0, ArgKey(Address), Column(Address, nodes), k);
    var a1 := WithArg(a0, ArgKey(Address), Column(Address, nodes));
    WithArgAt(a1, ArgKey(UsernameFile), Column(UsernameFile, nodes), k);
    var a2 := WithArg(a1, ArgKey(UsernameFile), Column(UsernameFile, nodes));
    WithArgAt(a2, ArgKey(PasswordFile), Column(PasswordFile, nodes), k);
    var a3 := WithArg(a2, ArgKey(PasswordFile), Column(PasswordFile, nodes));
    WithArgAt(a3, ArgKey(Tls), Column(Tls, nodes), k);
    var a4 := WithArg(a3, ArgKey(Tls), Column(Tls, nodes));
    WithArgAt(a4, ArgKey(TlsInsecure), Column(TlsInsecure, nodes), k);
  }

  lemma BuildElsewhere(nodes: seq<Node>, existing: Args, k: string)
    requires k !in OWNED
    ensures k in Build(nodes, existing) <==> k in existing
    ensures k in existing ==> Build(nodes, existing)[k] == existing[k]
  {
    forall a: Arg ensures ArgKey(a) != k { assert ArgKey(a) in OWNED; }
  }

  /** Each owned argument that is present splits into one field per active connection, in list
      order, exactly when no field holds a comma; an absent one means that all its fields are
      empty. So for comma-free fields the five lists stay aligned. */
  lemma ArgsRoundTrip(nodes: seq<Node>, existing: Args, a: Arg)
    ensures ArgKey(a) !in Build(nodes, existing) <==> AllEmpty(Column(a, nodes))
    ensures ArgKey(a) in Build(nodes, existing) ==>
      (Split(Build(nodes, existing)[ArgKey(a)], ',') == Column(a, nodes) <==>
       forall i :: 0 <= i < |nodes| ==> ',' !in FieldOf(a, nodes[i]))
  {
    BuildAt(nodes, existing, a);
    var c := Column(a, nodes);
    if ArgKey(a) in Build(nodes, existing) {
      if forall i :: 0 <= i < |nodes| ==> ',' !in FieldOf(a, nodes[i]) {
        SplitJoin(c, ',');
      }
      if Split(Join(c, ','), ',') == c {
        forall i | 0 <= i < |nodes| ensures ',' !in FieldOf(a, nodes[i]) { assert ',' !in c[i]; }
      }
    }
  }

  /** Rebuilding from its own result changes nothing. */
  lemma BuildFixedPoint(nodes: seq<Node>, existing: Args)
    ensures Build(nodes, Build(nodes, existing)) == Build(nodes, existing)
  {
    var once := Build(nodes, existing);
    var twice := Build(nodes, once);
    forall k ensures k in once <==> k in twice
      ensures k in once ==> twice[k] == once[k]
    {
      if k in OWNED {
        var a: Arg :| ArgKey(a) == k;
        BuildAt(nodes, existing, a);
        BuildAt(nodes, once, a);
      } else {
        BuildElsewhere(nodes, existing, k);
        BuildElsewhere(nodes, once, k);
      }
    }
  }

  /** Where a secret's key is mounted, piece by piece; without a key there is only a place holder. */
  lemma MountPath(secret: string, key: string)
    ensures key == "" ==> SecretKeyPath(secret, key) == ""
    ensures key != "" ==>
      var path, n := SecretKeyPath(secret, key), 16 + |secret|;
      |path| == n + 1 + |key| && path[..16] == "/etc/vm/secrets/" && path[16..n] == secret && path[n] == '/' && path[n + 1..] == key
  {}

  /** What the fields of one connection are, argument by argument. */
  predicate Shows(n: Node, key: string, field: string) {
    if key == "storageNode" then field == n.address
    else if key == "storageNode.usernameFile" then field == SecretKeyPath(n.secret, n.usernameKey)
    else if key == "storageNode.passwordFile" then field == SecretKeyPath(n.secret, n.passwordKey)
    else if key == "storageNode.tls" then field == (if n.tls then "true" else "false")
    else key == "storageNode.tlsInsecureSkipVerify" && field == (if n.insecure then "true" else "false")
  }

  lemma FieldShows(a: Arg, n: Node)
    ensures Shows(n, ArgKey(a), FieldOf(a, n))
  {
    ArgKeysDiffer();
  }

  lemma ArgKeysDiffer()
    ensures "storageNode.usernameFile" != "storageNode" && "storageNode.passwordFile" != "storageNode"
    ensures "storageNode.tls" != "storageNode" && "storageNode.tlsInsecureSkipVerify" != "storageNode"
    ensures "storageNode.passwordFile" != "storageNode.usernameFile"
    ensures "storageNode.tls" != "storageNode.usernameFile" && "storageNode.tls" != "storageNode.passwordFile"
    ensures "storageNode.tlsInsecureSkipVerify" != "storageNode.usernameFile"
    ensures "storageNode.tlsInsecureSkipVerify" != "storageNode.passwordFile"
    ensures "storageNode.tlsInsecureSkipVerify" != "storageNode.tls"
  {
    assert |"storageNode"| == 11 && |"storageNode.usernameFile"| == 24 && |"storageNode.passwordFile"| == 24;
    assert |"storageNode.tls"| == 15 && |"storageNode.tlsInsecureSkipVerify"| == 33;
    assert "storageNode.usernameFile"[12] == 'u' && "storageNode.passwordFile"[12] == 'p';
  }

  /** Each owned argument that is present has one field per connection, in list order, and each field
      is that connection's address, mount path or flag. */
  lemma ArgumentShows(nodes: seq<Node>, existing: Args, a: Arg, i: nat)
    requires i < |nodes| && forall j :: 0 <= j < |nodes| ==> ',' !in FieldOf(a, nodes[j])
    ensures ArgKey(a) in Build(nodes, existing) ==>
      var fields := Split(Build(nodes, existing)[ArgKey(a)], ',');
      |fields| == |nodes| && Shows(nodes[i], ArgKey(a), fields[i])
  {
    ArgsRoundTrip(nodes, existing, a);
    FieldShows(a, nodes[i]);
  }

  /** The arguments that are owned. */
  lemma OwnedAre(k: string)
    ensures k in OWNED <==>
      k == "storageNode" || k == "storageNode.usernameFile" || k == "storageNode.passwordFile" ||
      k == "storageNode.tls" || k == "storageNode.tlsInsecureSkipVerify"
  {
    assert ArgKey(Address) in OWNED && ArgKey(UsernameFile) in OWNED && ArgKey(PasswordFile) in OWNED;
    assert ArgKey(Tls) in OWNED && ArgKey(TlsInsecure) in OWNED;
    if k in OWNED { var a: Arg :| ArgKey(a) == k; }
  }

  // ----- buildStorageNodeConfig -----

  /** A listed connection: what the builder looks at. */
  datatype Listed = Listed(deleting: bool, node: Node)

  function ActiveNodes(list: seq<Listed>): seq<Node> {
    if list == [] then []
    else ActiveNodes(list[..|list| - 1]) + if list[|list| - 1].deleting then [] else [list[|list| - 1].node]
  }

  lemma {:induction false} ActiveConcat(a: seq<Listed>, b: seq<Listed>)
    ensures ActiveNodes(a + b) == ActiveNodes(a) + ActiveNodes(b)
  {
    if b == [] {
      assert a + b == a;
    } else {
      assert (a + b)[..|a + b| - 1] == a + b[..|b| - 1];
      ActiveConcat(a, b[..|b| - 1]);
    }
  }

  /** Connections under deletion may be left out, and a list of active connections gives all their
      nodes in list order: this says which nodes are active, and in which order. */
  lemma ActiveWithout(before: seq<Listed>, x: Listed, after: seq<Listed>)
    requires x.deleting
    ensures ActiveNodes(before + [x] + after) == ActiveNodes(before + after)
  {
    ActiveConcat(before + [x], after);
    ActiveConcat(before, [x]);
    ActiveConcat(before, after);
    assert [x][..0] == [] && ActiveNodes([x]) == [];
  }

  lemma {:induction false} AllActive(list: seq<Listed>)
    requires forall i :: 0 <= i < |list| ==> !list[i].deleting
    ensures |ActiveNodes(list)| == |list| && forall i :: 0 <= i < |list| ==> ActiveNodes(list)[i] == list[i].node
  {
    if list != [] { AllActive(list[..|list| - 1]); }
  }

  lemma {:induction false} SecretsOfList(list: seq<Listed>, x: string)
    ensures x in SecretNames(ActiveNodes(list)) <==>
      x != "" && exists i :: 0 <= i < |list| && !list[i].deleting && list[i].node.secret == x
  {
    if list != [] {
      var n, init := |list| - 1, list[..|list| - 1];
      SecretsOfList(init, x);
      assert forall i :: 0 <= i < n ==> init[i] == list[i];
      SecretsSnoc(ActiveNodes(init), list[n].node);
      assert ActiveNodes(init) + [] == ActiveNodes(init);
    }
  }

  method SetArg(args: Args, key: string, values: seq<string>) returns (r: Args)
    ensures r == WithArg(args, key, values)
  {
    var i := 0;
    while i < |values|
      invariant 0 <= i <= |values|
      invariant forall j :: 0 <= j < i ==> values[j] == ""
    {
      if values[i] != "" { return args[key := Join(values, ',')]; }
      i := i + 1;
    }
    r := args;
  }

  lemma ColumnSnoc(a: Arg, nodes: seq<Node>, n: Node)
    ensures Column(a, nodes + [n]) == Column(a, nodes) + [FieldOf(a, n)]
  {}

  lemma SecretsSnoc(nodes: seq<Node>, n: Node)
    ensures SecretNames(nodes + [n]) == SecretNames(nodes) + if n.secret == "" then {} else {n.secret}
  {
    var more := nodes + [n];
    forall x | x in SecretNames(nodes) ensures x in SecretNames(more) {
      var i :| 0 <= i < |nodes| && nodes[i].secret == x && x != "";
      assert more[i].secret == x;
    }
    if n.secret != "" { assert more[|nodes|].secret in SecretNames(more); }
  }

  /** The five lists grown by the loop. */
  datatype Columns = Columns(
    addresses: seq<string>, usernameFiles: seq<string>, passwordFiles: seq<string>,
    tls: seq<string>, insecure: seq<string>)

  function ColumnsOf(nodes: seq<Node>): Columns {
    Columns(Column(Address, nodes), Column(UsernameFile, nodes), Column(PasswordFile, nodes),
            Column(Tls, nodes), Column(TlsInsecure, nodes))
  }

  lemma ColumnsSnoc(nodes: seq<Node>, n: Node)
    ensures var c := ColumnsOf(nodes);
      ColumnsOf(nodes + [n]) ==
      Columns(c.addresses + [n.address], c.usernameFiles + [SecretKeyPath(n.secret, n.usernameKey)],
              c.passwordFiles + [SecretKeyPath(n.secret, n.passwordKey)], c.tls + [FormatBool(n.tls)],
              c.insecure + [FormatBool(n.insecure)])
  {
    ColumnSnoc(Address, nodes, n);
    ColumnSnoc(UsernameFile, nodes, n);
    ColumnSnoc(PasswordFile, nodes, n);
    ColumnSnoc(Tls, nodes, n);
    ColumnSnoc(TlsInsecure, nodes, n);
  }

  /** One connection more. */
  method AddNode(c: Columns, secrets: seq<string>, n: Node, ghost nodes: seq<Node>) returns (d: Columns, more: seq<string>)
    requires c == ColumnsOf(nodes) && Elements(secrets) == SecretNames(nodes)
    requires forall i, j :: 0 <= i < j < |secrets| ==> secrets[i] != secrets[j]
    ensures d == ColumnsOf(nodes + [n]) && Elements(more) == SecretNames(nodes + [n])
    ensures forall i, j :: 0 <= i < j < |more| ==> more[i] != more[j]
  {
    ColumnsSnoc(nodes, n);
    SecretsSnoc(nodes, n);
    assert Elements(secrets + [n.secret]) == Elements(secrets) + {n.secret};
    more := secrets;
    if n.secret != "" && n.secret !in secrets { more := secrets + [n.secret]; }
    d := Columns(c.addresses + [n.address], c.usernameFiles + [SecretKeyPath(n.secret, n.usernameKey)],
                 c.passwordFiles + [SecretKeyPath(n.secret, n.passwordKey)], c.tls + [FormatBool(n.tls)],
                 c.insecure + [FormatBool(n.insecure)]);
  }

  lemma ActiveUpTo(list: seq<Listed>, i: nat)
    requires i < |list|
    ensures ActiveNodes(list[..i + 1]) == if list[i].deleting then ActiveNodes(list[..i]) else ActiveNodes(list[..i]) + [list[i].node]
  {
    assert list[..i + 1][..i] == list[..i];
    assert ActiveNodes(list[..i]) + [] == ActiveNodes(list[..i]);
  }

  /** The loop over the listed connections: deleted ones are passed over, each secret is noted once. */
  method GatherColumns(list: seq<Listed>) returns (c: Columns, secrets: seq<string>)
    ensures c == ColumnsOf(ActiveNodes(list)) && Elements(secrets) == SecretNames(ActiveNodes(list))
    ensures forall i, j :: 0 <= i < j < |secrets| ==> secrets[i] != secrets[j]
  {
    c, secrets := Columns([], [], [], [], []), [];
    assert c == ColumnsOf([]);
    var i := 0;
    while i < |list|
      invariant 0 <= i <= |list|
      invariant c == ColumnsOf(ActiveNodes(list[..i])) && Elements(secrets) == SecretNames(ActiveNodes(list[..i]))
      invariant forall i, j :: 0 <= i < j < |secrets| ==> secrets[i] != secrets[j]
    {
      ActiveUpTo(list, i);
      if !list[i].deleting {
        c, secrets := AddNode(c, secrets, list[i].node, ActiveNodes(list[..i]));
      }
      i := i + 1;
    }
    assert list[..i] == list;
  }

  /** buildStorageNodeConfig */
  method BuildConfig(list: seq<Listed>, existing: Args) returns (args: Args, secrets: seq<string>)
    ensures args == Build(ActiveNodes(list), existing)
    ensures secrets == Listing(SecretNames(ActiveNodes(list)))
    ensures Ascending(secrets)
    ensures forall x :: x in secrets <==>
      x != "" && exists i :: 0 <= i < |list| && !list[i].deleting && list[i].node.secret == x
  {
    var c, names := GatherColumns(list);
    forall x ensures x in SecretNames(ActiveNodes(list)) <==>
      x != "" && exists i :: 0 <= i < |list| && !list[i].deleting && list[i].node.secret == x
    {
      SecretsOfList(list, x);
    }
    args := existing - OWNED;
    secrets := SortKeys(Elements(names));
    assert forall x :: x in secrets <==> x in Elements(secrets);
    args := SetArg(args, ArgKey(Address), c.addresses);
    args := SetArg(args, ArgKey(UsernameFile), c.usernameFiles);
    args := SetArg(args, ArgKey(PasswordFile), c.passwordFiles);
    args := SetArg(args, ArgKey(Tls), c.tls);
    args := SetArg(args, ArgKey(TlsInsecure), c.insecure);
  }
}
