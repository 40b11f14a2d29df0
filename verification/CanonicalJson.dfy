/** Canonical JSON as the audit exporter writes it: `marshalSorted` over the tree of
    `map[string]interface{}` values, and a reader for JSON texts (RFC 8259 sections 4 and 5).

    A tree (`Json`) holds its object fields in a map, as Go does. A text spells a `Doc`, where the
    members of an object come in order. Printing is `Canon`, then `Tokens`, then `Spelled`;
    reading is `Lex`, then `ParseDoc`, then `Erase`. */
module CanonicalJson {
  import opened Text
  import opened JsonText

  datatype Json =
    | Null
    | Bool(b: bool)
    | Num(n: int)
    | Str(s: string)
    | Arr(items: seq<Json>)
    | Obj(fields: map<string, Json>)

  datatype Doc =
    | DNull
    | DBool(b: bool)
    | DNum(n: int)
    | DStr(s: string)
    | DArr(items: seq<Doc>)
    | DObj(members: seq<Member>)

  datatype Member = Member(key: string, value: Doc)

  // ----- printing -----

  function Tokens(d: Doc): seq<Token>
    decreases d, 1
  {
    match d
    case DNull => [Word(NullWord)]
    case DBool(b) => [Word(if b then TrueWord else FalseWord)]
    case DNum(n) => [Number(n)]
    case DStr(s) => [Literal(s)]
    case DArr(items) => [LBracket] + ItemTokens(items) + [RBracket]
    case DObj(members) => [LBrace] + MemberTokens(members) + [RBrace]
  }

  function ItemTokens(items: seq<Doc>): seq<Token>
    decreases items, 0
  {
    if items == [] then []
    else if |items| == 1 then Tokens(items[0])
    else Tokens(items[0]) + [Comma] + ItemTokens(items[1..])
  }

  function OneMember(m: Member): seq<Token>
    decreases m, 2
  {
    [Literal(m.key), Colon] + Tokens(m.value)
  }

  function MemberTokens(members: seq<Member>): seq<Token>
    decreases members, 0
  {
    if members == [] then []
    else if |members| == 1 then OneMember(members[0])
    else OneMember(members[0]) + [Comma] + MemberTokens(members[1..])
  }

  /** The document a tree is printed as: members of every object in increasing key order. */
  ghost function Canon(v: Json): Doc {
    match v
    case Null => DNull
    case Bool(b) => DBool(b)
    case Num(n) => DNum(n)
    case Str(s) => DStr(s)
    case Arr(items) => DArr(seq(|items|, i requires 0 <= i < |items| => Canon(items[i])))
    case Obj(fields) => DObj(CanonMembers(v, Listing(fields.Keys)))
  }

  ghost function CanonMembers(v: Json, keys: seq<string>): (ms: seq<Member>)
    requires v.Obj? && Elements(keys) <= v.fields.Keys
    ensures |ms| == |keys|
    decreases v, |keys|
  {
    if keys == [] then []
    else
      assert keys[0] in Elements(keys);
      assert Elements(keys[1..]) <= Elements(keys);
      [Member(keys[0], Canon(v.fields[keys[0]]))] + CanonMembers(v, keys[1..])
  }

  /** The bytes of marshalSorted. */
  ghost function Marshal(v: Json): string { Spelled(Tokens(Canon(v))) }

  // ----- reading -----

  datatype Read<T> = NotRead | Read(value: T, rest: seq<Token>)

  function ParseDoc(ts: seq<Token>): (r: Read<Doc>)
    ensures r.Read? ==> |r.rest| < |ts|
    decreases |ts|, 0
  {
    if ts == [] then NotRead
    else match ts[0]
      case Word(w) => Read(if w.NullWord? then DNull else DBool(w.TrueWord?), ts[1..])
      case Number(n) => Read(DNum(n), ts[1..])
      case Literal(s) => Read(DStr(s), ts[1..])
      case LBracket =>
        if |ts| > 1 && ts[1] == RBracket then Read(DArr([]), ts[2..])
        else (match ParseItems(ts[1..]) case NotRead => NotRead case Read(xs, rest) => Read(DArr(xs), rest))
      case LBrace =>
        if |ts| > 1 && ts[1] == RBrace then Read(DObj([]), ts[2..])
        else (match ParseMembers(ts[1..]) case NotRead => NotRead case Read(ms, rest) => Read(DObj(ms), rest))
      case _ => NotRead
  }

  /** One or more items, up to and including the closing bracket. */
  function ParseItems(ts: seq<Token>): (r: Read<seq<Doc>>)
    ensures r.Read? ==> |r.rest| < |ts|
    decreases |ts|, 1
  {
    match ParseDoc(ts)
    case NotRead => NotRead
    case Read(d, rest) =>
      if rest == [] then NotRead
      else if rest[0] == RBracket then Read([d], rest[1..])
      else if rest[0] != Comma then NotRead
      else match ParseItems(rest[1..])
        case NotRead => NotRead
        case Read(ds, rest') => Read([d] + ds, rest')
  }

  function ParseMember(ts: seq<Token>): (r: Read<Member>)
    ensures r.Read? ==> |r.rest| < |ts|
    decreases |ts|, 1
  {
    if |ts| < 2 || !ts[0].Literal? || ts[1] != Colon then NotRead
    else match ParseDoc(ts[2..])
      case NotRead => NotRead
      case Read(d, rest) => Read(Member(ts[0].s, d), rest)
  }

  /** One or more members, up to and including the closing brace. */
  function ParseMembers(ts: seq<Token>): (r: Read<seq<Member>>)
    ensures r.Read? ==> |r.rest| < |ts|
    decreases |ts|, 2
  {
    match ParseMember(ts)
    case NotRead => NotRead
    case Read(m, rest) =>
      if rest == [] then NotRead
      else if rest[0] == RBrace then Read([m], rest[1..])
      else if rest[0] != Comma then NotRead
      else match ParseMembers(rest[1..])
        case NotRead => NotRead
        case Read(ms, rest') => Read([m] + ms, rest')
  }

  /** The tree a document denotes; a repeated key keeps its last value, as json.Unmarshal does. */
  function Erase(d: Doc): Json
    decreases d, 1
  {
    match d
    case DNull => Null
    case DBool(b) => Bool(b)
    case DNum(n) => Num(n)
    case DStr(s) => Str(s)
    case DArr(items) => Arr(seq(|items|, i requires 0 <= i < |items| => Erase(items[i])))
    case DObj(members) => Obj(EraseMembers(members))
  }

  function EraseMembers(ms: seq<Member>): map<string, Json>
    decreases ms, 0
  {
    if ms == [] then map[]
    else map[ms[0].key := Erase(ms[0].value)] + EraseMembers(ms[1..])
  }

  function ParseText(s: string): Option<Doc> {
    match Lex(s)
    case None => None
    case Some(ts) => match ParseDoc(ts)
      case NotRead => None
      case Read(d, rest) => if rest == [] then Some(d) else None
  }

  /** json.Valid */
  predicate ValidText(s: string) { ParseText(s).Some? }

  /** json.Unmarshal into an interface tree. */
  function Unmarshal(s: string): Option<Json> {
    match ParseText(s)
    case None => None
    case Some(d) => Some(Erase(d))
  }

  /** White space between tokens is passed over. */
  lemma SpacePassed(s: string, c: char)
    requires c == ' ' || c == '\t' || c == '\n' || c == '\r'
    ensures Lex([c] + s) == Lex(s)
  {
    assert ([c] + s)[1..] == s;
  }

  // ----- reading back what was printed -----

  lemma TokensStart(d: Doc)
    ensures Tokens(d) != []
    ensures Tokens(d)[0] != RBracket && Tokens(d)[0] != RBrace
  {}

  lemma {:induction false} ParseTokens(d: Doc, rest: seq<Token>)
    ensures ParseDoc(Tokens(d) + rest) == Read(d, rest)
    decreases d, 1
  {
    var ts := Tokens(d) + rest;
    match d
    case DArr(items) =>
      assert ts[1..] == ItemTokens(items) + [RBracket] + rest;
      if items == [] {
        assert ts[2..] == rest;
      } else {
        TokensStart(items[0]);
        assert ts[1] == Tokens(items[0])[0];
        ParseItemTokens(items, rest);
      }
    case DObj(ms) =>
      assert ts[1..] == MemberTokens(ms) + [RBrace] + rest;
      if ms == [] {
        assert ts[2..] == rest;
      } else {
        assert ts[1] == Literal(ms[0].key);
        ParseMemberTokens(ms, rest);
      }
    case _ => assert ts[1..] == rest;
  }

  lemma ItemsLast(ts: seq<Token>, d: Doc, rest: seq<Token>)
    requires ParseDoc(ts) == Read(d, [RBracket] + rest)
    ensures ParseItems(ts) == Read([d], rest)
  {
    assert ([RBracket] + rest)[1..] == rest;
  }

  lemma ItemsMore(ts: seq<Token>, d: Doc, more: seq<Token>, ds: seq<Doc>, rest: seq<Token>)
    requires ParseDoc(ts) == Read(d, [Comma] + more) && ParseItems(more) == Read(ds, rest)
    ensures ParseItems(ts) == Read([d] + ds, rest)
  {
    assert ([Comma] + more)[1..] == more;
  }

  lemma MembersLast(ts: seq<Token>, m: Member, rest: seq<Token>)
    requires ParseMember(ts) == Read(m, [RBrace] + rest)
    ensures ParseMembers(ts) == Read([m], rest)
  {
    assert ([RBrace] + rest)[1..] == rest;
  }

  lemma MembersMore(ts: seq<Token>, m: Member, more: seq<Token>, ms: seq<Member>, rest: seq<Token>)
    requires ParseMember(ts) == Read(m, [Comma] + more) && ParseMembers(more) == Read(ms, rest)
    ensures ParseMembers(ts) == Read([m] + ms, rest)
  {
    assert ([Comma] + more)[1..] == more;
  }

  lemma Regroup(a: seq<Token>, b: seq<Token>, c: seq<Token>, d: seq<Token>, e: seq<Token>)
    ensures a + b + c + d + e == a + (b + (c + d + e))
    ensures a + d + e == a + (d + e)
  {}

  lemma {:induction false} ParseItemTokens(items: seq<Doc>, rest: seq<Token>)
    requires items != []
    ensures ParseItems(ItemTokens(items) + [RBracket] + rest) == Read(items, rest)
    decreases items, 0
  {
    var more := ItemTokens(items[1..]) + [RBracket] + rest;
    Regroup(Tokens(items[0]), [Comma], ItemTokens(items[1..]), [RBracket], rest);
    assert [items[0]] + items[1..] == items;
    if |items| == 1 {
      ParseTokens(items[0], [RBracket] + rest);
      ItemsLast(Tokens(items[0]) + ([RBracket] + rest), items[0], rest);
      assert [items[0]] == items;
    } else {
      ParseTokens(items[0], [Comma] + more);
      ParseItemTokens(items[1..], rest);
      ItemsMore(Tokens(items[0]) + ([Comma] + more), items[0], more, items[1..], rest);
    }
  }

  lemma {:induction false} ParseOneMember(m: Member, rest: seq<Token>)
    ensures ParseMember(OneMember(m) + rest) == Read(m, rest)
    decreases m, 2
  {
    ParseTokens(m.value, rest);
    assert (OneMember(m) + rest)[2..] == Tokens(m.value) + rest;
  }

  lemma {:induction false} ParseMemberTokens(ms: seq<Member>, rest: seq<Token>)
    requires ms != []
    ensures ParseMembers(MemberTokens(ms) + [RBrace] + rest) == Read(ms, rest)
    decreases ms, 0
  {
    var more := MemberTokens(ms[1..]) + [RBrace] + rest;
    Regroup(OneMember(ms[0]), [Comma], MemberTokens(ms[1..]), [RBrace], rest);
    assert [ms[0]] + ms[1..] == ms;
    if |ms| == 1 {
      ParseOneMember(ms[0], [RBrace] + rest);
      MembersLast(OneMember(ms[0]) + ([RBrace] + rest), ms[0], rest);
      assert [ms[0]] == ms;
    } else {
      ParseOneMember(ms[0], [Comma] + more);
      ParseMemberTokens(ms[1..], rest);
      MembersMore(OneMember(ms[0]) + ([Comma] + more), ms[0], more, ms[1..], rest);
    }
  }

  /** What may come after a value: nothing, or a token that is not a number. */
  predicate Follows(ts: seq<Token>) { ts == [] || !ts[0].Number? }

  lemma SpacedJoin(a: seq<Token>, b: seq<Token>)
    requires Spaced(a) && Spaced(b) && (Follows(b) || a == [] || !a[|a| - 1].Number?)
    ensures Spaced(a + b)
  {}

  lemma {:induction false} TokensSpaced(d: Doc)
    ensures Spaced(Tokens(d))
    decreases d, 1
  {
    match d
    case DArr(items) =>
      ItemsSpaced(items);
      SpacedJoin(ItemTokens(items), [RBracket]);
      SpacedJoin([LBracket], ItemTokens(items) + [RBracket]);
      assert Tokens(d) == [LBracket] + (ItemTokens(items) + [RBracket]);
    case DObj(ms) =>
      MembersSpaced(ms);
      SpacedJoin(MemberTokens(ms), [RBrace]);
      SpacedJoin([LBrace], MemberTokens(ms) + [RBrace]);
      assert Tokens(d) == [LBrace] + (MemberTokens(ms) + [RBrace]);
    case _ =>
  }

  lemma {:induction false} ItemsSpaced(items: seq<Doc>)
    ensures Spaced(ItemTokens(items))
    decreases items, 0
  {
    if items != [] {
      TokensSpaced(items[0]);
      ItemsSpaced(items[1..]);
      SpacedJoin(Tokens(items[0]), [Comma]);
      SpacedJoin(Tokens(items[0]) + [Comma], ItemTokens(items[1..]));
    }
  }

  lemma {:induction false} MembersSpaced(ms: seq<Member>)
    ensures Spaced(MemberTokens(ms))
    decreases ms, 0
  {
    if ms != [] {
      TokensSpaced(ms[0].value);
      MembersSpaced(ms[1..]);
      SpacedJoin([Literal(ms[0].key), Colon], Tokens(ms[0].value));
      SpacedJoin(OneMember(ms[0]), [Comma]);
      SpacedJoin(OneMember(ms[0]) + [Comma], MemberTokens(ms[1..]));
    }
  }

  lemma ParseTextBack(d: Doc)
    ensures ParseText(Spelled(Tokens(d))) == Some(d)
  {
    TokensSpaced(d);
    LexBack(Tokens(d));
    ParseTokens(d, []);
    assert Tokens(d) + [] == Tokens(d);
  }

  // ----- the canonical document stands for the tree it came from -----

  lemma {:induction false} CanonMembersAt(v: Json, keys: seq<string>, i: nat)
    requires v.Obj? && Elements(keys) <= v.fields.Keys && i < |keys|
    ensures keys[i] in v.fields
    ensures CanonMembers(v, keys)[i] == Member(keys[i], Canon(v.fields[keys[i]]))
  {
    assert keys[i] in Elements(keys);
    if i > 0 {
      assert Elements(keys[1..]) <= Elements(keys);
      CanonMembersAt(v, keys[1..], i - 1);
    }
  }

  /** Members in strictly increasing key order. */
  ghost predicate Ordered(ms: seq<Member>) {
    forall i, j :: 0 <= i < j < |ms| ==> Less(ms[i].key, ms[j].key)
  }

  lemma {:induction false} EraseOrdered(ms: seq<Member>)
    requires Ordered(ms)
    ensures forall i :: 0 <= i < |ms| ==>
      ms[i].key in EraseMembers(ms) && EraseMembers(ms)[ms[i].key] == Erase(ms[i].value)
    ensures forall k :: k in EraseMembers(ms) ==> exists i :: 0 <= i < |ms| && ms[i].key == k
  {
    if ms != [] {
      var rest := ms[1..];
      EraseOrdered(rest);
      forall i | 0 <= i < |ms|
        ensures ms[i].key in EraseMembers(ms) && EraseMembers(ms)[ms[i].key] == Erase(ms[i].value)
      {
        if i > 0 {
          assert ms[i] == rest[i - 1];
        } else if ms[0].key in EraseMembers(rest) {
          var j :| 0 <= j < |rest| && rest[j].key == ms[0].key;
          assert rest[j] == ms[j + 1];
          LessIrreflexive(ms[0].key);
        }
      }
      forall k | k in EraseMembers(ms) ensures exists i :: 0 <= i < |ms| && ms[i].key == k {
        if k in EraseMembers(rest) {
          var j :| 0 <= j < |rest| && rest[j].key == k;
          assert ms[j + 1].key == k;
        } else {
          assert ms[0].key == k;
        }
      }
    }
  }

  /** The map has these values under these keys, and no others. */
  ghost predicate Tabulates(m: map<string, Json>, keys: seq<string>, vals: seq<Json>) {
    |vals| == |keys| && (forall i :: 0 <= i < |keys| ==> keys[i] in m && m[keys[i]] == vals[i]) &&
    forall k :: k in m ==> k in keys
  }

  lemma TabulatedOnce(a: map<string, Json>, b: map<string, Json>, keys: seq<string>, vals: seq<Json>)
    requires Tabulates(a, keys, vals) && Tabulates(b, keys, vals)
    ensures a == b
  {
    forall k ensures (k in a <==> k in b) && (k in a ==> a[k] == b[k]) {
      if k in keys { var i :| 0 <= i < |keys| && keys[i] == k; }
    }
  }

  lemma ErasedTable(ms: seq<Member>, keys: seq<string>, vals: seq<Json>)
    requires |ms| == |keys| == |vals| && Increasing(keys)
    requires forall i :: 0 <= i < |ms| ==> ms[i].key == keys[i] && Erase(ms[i].value) == vals[i]
    ensures Tabulates(EraseMembers(ms), keys, vals)
  {
    assert Ordered(ms);
    EraseOrdered(ms);
    forall k | k in EraseMembers(ms) ensures k in keys {
      var i :| 0 <= i < |ms| && ms[i].key == k;
      assert keys[i] == k;
    }
  }

  lemma EraseListed(ms: seq<Member>, keys: seq<string>, fields: map<string, Json>)
    requires Lists(keys, fields.Keys) && |ms| == |keys|
    requires forall i :: 0 <= i < |ms| ==>
      ms[i].key == keys[i] && keys[i] in fields && Erase(ms[i].value) == fields[keys[i]]
    ensures EraseMembers(ms) == fields
  {
    var vals := seq(|keys|, i requires 0 <= i < |keys| => if keys[i] in fields then fields[keys[i]] else Null);
    ErasedTable(ms, keys, vals);
    forall k | k in fields ensures k in keys { assert k in Elements(keys); }
    TabulatedOnce(EraseMembers(ms), fields, keys, vals);
  }

  lemma {:induction false} EraseCanon(v: Json)
    ensures Erase(Canon(v)) == v
  {
    match v
    case Arr(items) =>
      forall i | 0 <= i < |items| ensures Erase(Canon(items[i])) == items[i] { EraseCanon(items[i]); }
    case Obj(fields) =>
      var keys := Listing(fields.Keys);
      var ms := CanonMembers(v, keys);
      forall i | 0 <= i < |keys|
        ensures ms[i].key == keys[i] && keys[i] in fields && Erase(ms[i].value) == fields[keys[i]]
      {
        CanonMembersAt(v, keys, i);
        EraseCanon(fields[keys[i]]);
      }
      EraseListed(ms, keys, fields);
    case _ =>
  }

  /** Object keys increase strictly, at every level of the document. */
  ghost predicate KeysIncrease(d: Doc)
    decreases d
  {
    match d
    case DArr(items) => forall i :: 0 <= i < |items| ==> KeysIncrease(items[i])
    case DObj(ms) =>
      Ordered(ms) && forall i :: 0 <= i < |ms| ==> KeysIncrease(ms[i].value)
    case _ => true
  }

  lemma {:induction false} CanonIncreases(v: Json)
    ensures KeysIncrease(Canon(v))
  {
    match v
    case Arr(items) =>
      forall i | 0 <= i < |items| ensures KeysIncrease(Canon(items[i])) { CanonIncreases(items[i]); }
    case Obj(fields) =>
      var keys := Listing(fields.Keys);
      forall i | 0 <= i < |keys|
        ensures CanonMembers(v, keys)[i].key == keys[i] && KeysIncrease(CanonMembers(v, keys)[i].value)
      {
        CanonMembersAt(v, keys, i);
        CanonIncreases(fields[keys[i]]);
      }
    case _ =>
  }

  /** The same of the characters: of any two keys of an object the one that ends, or has the smaller
      character, where they first differ is written first. */
  ghost predicate KeysAscend(d: Doc)
    decreases d
  {
    match d
    case DArr(items) => forall i :: 0 <= i < |items| ==> KeysAscend(items[i])
    case DObj(ms) =>
      (forall i, j :: 0 <= i < j < |ms| ==> ComesBefore(ms[i].key, ms[j].key)) &&
      forall i :: 0 <= i < |ms| ==> KeysAscend(ms[i].value)
    case _ => true
  }

  lemma {:induction false} IncreaseAscends(d: Doc)
    requires KeysIncrease(d)
    ensures KeysAscend(d)
  {
    match d
    case DArr(items) =>
      forall i | 0 <= i < |items| ensures KeysAscend(items[i]) { IncreaseAscends(items[i]); }
    case DObj(ms) =>
      forall i, j | 0 <= i < j < |ms| ensures ComesBefore(ms[i].key, ms[j].key) { LessMeans(ms[i].key, ms[j].key); }
      forall i | 0 <= i < |ms| ensures KeysAscend(ms[i].value) { IncreaseAscends(ms[i].value); }
    case _ =>
  }

  /** Reading the canonical bytes of any tree gives the tree back; the bytes are valid JSON on one
      line; their members are in strictly increasing key order at every level; and putting what was
      read into canonical form again gives the same bytes. */
  lemma CanonicalRoundTrip(v: Json)
    ensures Unmarshal(Marshal(v)) == Some(v)
    ensures ValidText(Marshal(v)) && KeysIncrease(ParseText(Marshal(v)).value) && KeysAscend(ParseText(Marshal(v)).value)
    ensures Marshal(Unmarshal(Marshal(v)).value) == Marshal(v)
    ensures '\n' !in Marshal(v)
  {
    ParseTextBack(Canon(v));
    EraseCanon(v);
    CanonIncreases(v);
    IncreaseAscends(Canon(v));
    SpelledOneLine(Tokens(Canon(v)));
  }

  /** Different trees never share their canonical bytes. */
  lemma CanonicalInjective(v: Json, w: Json)
    requires Marshal(v) == Marshal(w)
    ensures v == w
  {
    CanonicalRoundTrip(v);
    CanonicalRoundTrip(w);
  }

  /** A document with increasing keys is the canonical form of the tree it denotes: the only text
      of a tree whose keys increase everywhere is the one marshalSorted writes. */
  lemma {:induction false} CanonUnique(d: Doc)
    requires KeysIncrease(d)
    ensures Canon(Erase(d)) == d
  {
    match d
    case DArr(items) =>
      forall i | 0 <= i < |items| ensures Canon(Erase(items[i])) == items[i] { CanonUnique(items[i]); }
    case DObj(ms) =>
      forall i | 0 <= i < |ms| ensures Canon(Erase(ms[i].value)) == ms[i].value { CanonUnique(ms[i].value); }
      CanonUniqueObj(ms);
    case _ =>
  }

  lemma MemberKeys(ms: seq<Member>) returns (keys: seq<string>)
    requires Ordered(ms)
    ensures |keys| == |ms| && (forall i :: 0 <= i < |ms| ==> keys[i] == ms[i].key) && Increasing(keys)
    ensures forall k :: k in keys <==> k in EraseMembers(ms)
  {
    keys := seq(|ms|, i requires 0 <= i < |ms| => ms[i].key);
    EraseOrdered(ms);
    forall k | k in EraseMembers(ms) ensures k in keys {
      var i :| 0 <= i < |ms| && ms[i].key == k;
      assert keys[i] == k;
    }
  }

  lemma ListingOfMembers(ms: seq<Member>)
    requires Ordered(ms)
    ensures |Listing(EraseMembers(ms).Keys)| == |ms|
    ensures forall i :: 0 <= i < |ms| ==> Listing(EraseMembers(ms).Keys)[i] == ms[i].key
  {
    var keys := MemberKeys(ms);
    assert Elements(keys) == EraseMembers(ms).Keys;
    ListingUnique(keys, Listing(EraseMembers(ms).Keys), EraseMembers(ms).Keys);
  }

  lemma CanonUniqueObj(ms: seq<Member>)
    requires Ordered(ms)
    requires forall i :: 0 <= i < |ms| ==> Canon(Erase(ms[i].value)) == ms[i].value
    ensures Canon(Obj(EraseMembers(ms))) == DObj(ms)
  {
    var v := Obj(EraseMembers(ms));
    var keys := Listing(v.fields.Keys);
    ListingOfMembers(ms);
    forall i | 0 <= i < |ms| ensures CanonMembers(v, keys)[i] == ms[i] {
      CanonMembersAt(v, keys, i);
      EraseOrdered(ms);
    }
    assert CanonMembers(v, keys) == ms;
  }

  // ----- marshalSorted -----

  lemma Inside(a: seq<Token>, b: seq<Token>, x: seq<Token>, y: seq<Token>, z: seq<Token>)
    ensures a + b + (x + y + z) == a + b + x + y + z
  {}

  lemma {:induction false} ItemTokensSnoc(items: seq<Doc>, d: Doc)
    ensures ItemTokens(items + [d]) == ItemTokens(items) + (if items == [] then [] else [Comma]) + Tokens(d)
  {
    if items == [] {
      assert items + [d] == [d];
    } else {
      var rest := items[1..];
      ItemTokensSnoc(rest, d);
      Inside(Tokens(items[0]), [Comma], ItemTokens(rest), if rest == [] then [] else [Comma], Tokens(d));
      assert (items + [d])[1..] == rest + [d];
      if rest == [] { assert Tokens(items[0]) + [Comma] + [] + [] == Tokens(items[0]) + [Comma]; }
    }
  }

  lemma {:induction false} MemberTokensSnoc(ms: seq<Member>, m: Member)
    ensures MemberTokens(ms + [m]) == MemberTokens(ms) + (if ms == [] then [] else [Comma]) + OneMember(m)
  {
    if ms == [] {
      assert ms + [m] == [m];
    } else {
      var rest := ms[1..];
      MemberTokensSnoc(rest, m);
      Inside(OneMember(ms[0]), [Comma], MemberTokens(rest), if rest == [] then [] else [Comma], OneMember(m));
      assert (ms + [m])[1..] == rest + [m];
      if rest == [] { assert OneMember(ms[0]) + [Comma] + [] + [] == OneMember(ms[0]) + [Comma]; }
    }
  }

  lemma SpelledTwo(a: seq<Token>, b: seq<Token>, c: seq<Token>)
    ensures Spelled(a + b + c) == Spelled(a) + Spelled(b) + Spelled(c)
  {
    FlattenConcat(Spell, a + b, c);
    FlattenConcat(Spell, a, b);
  }

  lemma SpelledOne(t: Token)
    ensures Spelled([t]) == Spell(t)
  {
    assert Flatten(Spell, [t]) == Spell(t) + Flatten(Spell, [t][1..]);
  }

  lemma SpelledMember(m: Member)
    ensures Spelled(OneMember(m)) == Quote(m.key) + ":" + Spelled(Tokens(m.value))
  {
    SpelledTwo([Literal(m.key)], [Colon], Tokens(m.value));
    SpelledOne(Literal(m.key));
    SpelledOne(Colon);
    assert [Literal(m.key)] + [Colon] == [Literal(m.key), Colon];
  }

  lemma MembersUpTo(ms: seq<Member>, i: nat)
    requires i < |ms|
    ensures Spelled(MemberTokens(ms[..i + 1])) ==
            Spelled(MemberTokens(ms[..i])) + (if i == 0 then "" else ",") + Spelled(OneMember(ms[i]))
  {
    MemberTokensSnoc(ms[..i], ms[i]);
    assert ms[..i + 1] == ms[..i] + [ms[i]];
    SpelledTwo(MemberTokens(ms[..i]), if i == 0 then [] else [Comma], OneMember(ms[i]));
    SpelledOne(Comma);
  }

  lemma ItemsUpTo(ds: seq<Doc>, i: nat)
    requires i < |ds|
    ensures Spelled(ItemTokens(ds[..i + 1])) ==
            Spelled(ItemTokens(ds[..i])) + (if i == 0 then "" else ",") + Spelled(Tokens(ds[i]))
  {
    ItemTokensSnoc(ds[..i], ds[i]);
    assert ds[..i + 1] == ds[..i] + [ds[i]];
    SpelledTwo(ItemTokens(ds[..i]), if i == 0 then [] else [Comma], Tokens(ds[i]));
    SpelledOne(Comma);
  }

  // ----- the text itself -----

  /** The words, numbers and strings of canonical JSON. */
  lemma LeafText(b: bool, n: int, s: string)
    ensures Marshal(Null) == "null" && Marshal(Bool(b)) == (if b then "true" else "false")
    ensures Marshal(Num(n)) == Integer(n) && Marshal(Str(s)) == Quote(s)
  {
    SpelledOne(Word(NullWord));
    SpelledOne(Word(if b then TrueWord else FalseWord));
    SpelledOne(Number(n));
    SpelledOne(Literal(s));
  }

  lemma JoinUpTo(texts: seq<string>, n: nat)
    requires n < |texts|
    ensures Join(texts[..n + 1], ',') == Join(texts[..n], ',') + (if n == 0 then "" else ",") + texts[n]
  {
    JoinSnoc(texts[..n], texts[n], ',');
    assert texts[..n + 1] == texts[..n] + [texts[n]];
  }

  lemma {:induction false} ItemsJoined(ds: seq<Doc>, texts: seq<string>, n: nat)
    requires |texts| == |ds| && n <= |ds| && forall i :: 0 <= i < |ds| ==> texts[i] == Spelled(Tokens(ds[i]))
    ensures Spelled(ItemTokens(ds[..n])) == Join(texts[..n], ',')
  {
    if n > 0 {
      ItemsJoined(ds, texts, n - 1);
      ItemsUpTo(ds, n - 1);
      JoinUpTo(texts, n - 1);
    }
  }

  lemma {:induction false} MembersJoined(ms: seq<Member>, texts: seq<string>, n: nat)
    requires |texts| == |ms| && n <= |ms| && forall i :: 0 <= i < |ms| ==> texts[i] == Spelled(OneMember(ms[i]))
    ensures Spelled(MemberTokens(ms[..n])) == Join(texts[..n], ',')
  {
    if n > 0 {
      MembersJoined(ms, texts, n - 1);
      MembersUpTo(ms, n - 1);
      JoinUpTo(texts, n - 1);
    }
  }

  lemma Bracketed(ds: seq<Doc>)
    ensures Spelled(Tokens(DArr(ds))) == "[" + Spelled(ItemTokens(ds)) + "]"
  {
    SpelledTwo([LBracket], ItemTokens(ds), [RBracket]);
    SpelledOne(LBracket);
    SpelledOne(RBracket);
  }

  lemma Braced(ms: seq<Member>)
    ensures Spelled(Tokens(DObj(ms))) == "{" + Spelled(MemberTokens(ms)) + "}"
  {
    SpelledTwo([LBrace], MemberTokens(ms), [RBrace]);
    SpelledOne(LBrace);
    SpelledOne(RBrace);
  }

  lemma MemberTexts(fields: map<string, Json>, keys: seq<string>, texts: seq<string>) returns (ms: seq<Member>)
    requires Elements(keys) == fields.Keys && |texts| == |keys|
    requires forall i :: 0 <= i < |keys| ==> keys[i] in fields && texts[i] == Quote(keys[i]) + ":" + Marshal(fields[keys[i]])
    ensures ms == CanonMembers(Obj(fields), keys) && |ms| == |texts|
    ensures forall i :: 0 <= i < |ms| ==> texts[i] == Spelled(OneMember(ms[i]))
  {
    ms := CanonMembers(Obj(fields), keys);
    forall i | 0 <= i < |keys| ensures texts[i] == Spelled(OneMember(ms[i])) {
      CanonMembersAt(Obj(fields), keys, i);
      SpelledMember(ms[i]);
    }
  }

  /** An array is its items in order, separated by commas, in brackets. */
  lemma ArrayText(items: seq<Json>, texts: seq<string>)
    requires |texts| == |items| && forall i :: 0 <= i < |items| ==> texts[i] == Marshal(items[i])
    ensures Marshal(Arr(items)) == "[" + Join(texts, ',') + "]"
  {
    var ds := Canon(Arr(items)).items;
    ItemsJoined(ds, texts, |ds|);
    assert ds[..|ds|] == ds && texts[..|ds|] == texts;
    Bracketed(ds);
  }

  lemma ObjectDoc(fields: map<string, Json>, keys: seq<string>)
    requires Ascending(keys) && Elements(keys) == fields.Keys
    ensures Canon(Obj(fields)) == DObj(CanonMembers(Obj(fields), keys))
  {
    AscendingIsListing(keys, fields.Keys);
  }

  lemma MembersText(ms: seq<Member>, texts: seq<string>)
    requires |texts| == |ms| && forall i :: 0 <= i < |ms| ==> texts[i] == Spelled(OneMember(ms[i]))
    ensures Spelled(Tokens(DObj(ms))) == "{" + Join(texts, ',') + "}"
  {
    MembersJoined(ms, texts, |ms|);
    assert ms[..|ms|] == ms && texts[..|ms|] == texts;
    Braced(ms);
  }

  /** An object is its members, key, colon and value, in ascending order of the keys, separated by
      commas, in braces. */
  lemma ObjectText(fields: map<string, Json>, keys: seq<string>, texts: seq<string>)
    requires Ascending(keys) && Elements(keys) == fields.Keys && |texts| == |keys|
    requires forall i :: 0 <= i < |keys| ==> keys[i] in fields && texts[i] == Quote(keys[i]) + ":" + Marshal(fields[keys[i]])
    ensures Marshal(Obj(fields)) == "{" + Join(texts, ',') + "}"
  {
    var ms := MemberTexts(fields, keys, texts);
    ObjectDoc(fields, keys);
    MembersText(ms, texts);
  }

  /** What marshalSorted writes: the tree, with its keys in ascending order. */
  ghost predicate Writes(buf: string, v: Json) {
    Unmarshal(buf) == Some(v) && ParseText(buf).Some? && KeysAscend(ParseText(buf).value)
  }

  /** marshalSorted. The bytes depend on the tree alone. */
  method MarshalSorted(v: Json) returns (buf: string)
    ensures buf == Marshal(v) && Writes(buf, v)
    decreases v, 2
  {
    CanonicalRoundTrip(v);
    match v
    case Obj(_) => buf := MarshalObject(v);
    case Arr(_) => buf := MarshalArray(v);
    case Null => SpelledOne(Word(NullWord)); buf := "null";
    case Bool(b) => SpelledOne(Word(if b then TrueWord else FalseWord)); buf := if b then "true" else "false";
    case Num(n) => SpelledOne(Number(n)); buf := Integer(n);
    case Str(s) => SpelledOne(Literal(s)); buf := Quote(s);
  }

  /** The keys are collected in whatever order the map yields them, then sorted. */
  method MarshalObject(v: Json) returns (buf: string)
    requires v.Obj?
    ensures buf == Marshal(v)
    decreases v, 1
  {
    var keys := SortKeys(v.fields.Keys);
    ghost var ms := CanonMembers(v, keys);
    forall i | 0 <= i < |keys|
      ensures keys[i] in v.fields && ms[i] == Member(keys[i], Canon(v.fields[keys[i]]))
    {
      CanonMembersAt(v, keys, i);
    }
    var body := WriteMembers(v, keys, ms);
    SpelledTwo([LBrace], MemberTokens(ms), [RBrace]);
    SpelledOne(LBrace);
    SpelledOne(RBrace);
    buf := "{" + body + "}";
  }

  method WriteMembers(v: Json, keys: seq<string>, ghost ms: seq<Member>) returns (buf: string)
    requires v.Obj? && |ms| == |keys|
    requires forall i :: 0 <= i < |keys| ==>
      keys[i] in v.fields && ms[i] == Member(keys[i], Canon(v.fields[keys[i]]))
    ensures buf == Spelled(MemberTokens(ms))
    decreases v, 0
  {
    buf := "";
    var i := 0;
    while i < |keys|
      invariant 0 <= i <= |keys|
      invariant buf == Spelled(MemberTokens(ms[..i]))
    {
      var val := MarshalSorted(v.fields[keys[i]]);
      SpelledMember(ms[i]);
      MembersUpTo(ms, i);
      buf := buf + (if i == 0 then "" else ",") + (Quote(keys[i]) + ":" + val);
      i := i + 1;
    }
    assert ms[..i] == ms;
  }

  method MarshalArray(v: Json) returns (buf: string)
    requires v.Arr?
    ensures buf == Marshal(v)
    decreases v, 0
  {
    ghost var ds := Canon(v).items;
    var body := "";
    var i := 0;
    while i < |v.items|
      invariant 0 <= i <= |v.items|
      invariant body == Spelled(ItemTokens(ds[..i]))
    {
      var item := MarshalSorted(v.items[i]);
      ItemsUpTo(ds, i);
      body := body + (if i == 0 then "" else ",") + item;
      i := i + 1;
    }
    assert ds[..i] == ds;
    SpelledTwo([LBracket], ItemTokens(ds), [RBracket]);
    SpelledOne(LBracket);
    SpelledOne(RBracket);
    buf := "[" + body + "]";
  }
}
