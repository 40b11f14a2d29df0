/** JSON tokens and the characters that spell them (RFC 8259 sections 2, 6 and 7), with the string
    escaping of Go's json.Marshal and integer numbers. */
module JsonText {
  import opened Text
  import opened Hex

  datatype Token =
    | LBrace | RBrace | LBracket | RBracket | Comma | Colon
    | Word(w: Keyword)
    | Number(n: int)
    | Literal(s: string)

  datatype Keyword = NullWord | TrueWord | FalseWord

  datatype Parsed<T> = Fail | Ok(value: T, rest: string)

  // ----- string literals: json.Marshal with HTML escaping -----

  function Hex4(n: nat): string
    requires n < 0x10000
  {
    var n1 := n / 16; var n2 := n1 / 16; var n3 := n2 / 16;
    [HexDigit(n3), HexDigit(n2 % 16), HexDigit(n1 % 16), HexDigit(n % 16)]
  }

  function Hex4Value(s: string): nat
    requires |s| == 4 && forall i :: 0 <= i < 4 ==> IsHex(s[i])
  {
    ((HexValue(s[0]) * 16 + HexValue(s[1])) * 16 + HexValue(s[2])) * 16 + HexValue(s[3])
  }

  function EscapeChar(c: char): string {
    if c == '"' then "\\\""
    else if c == '\\' then "\\\\"
    else if c as int == 8 then "\\b"
    else if c as int == 12 then "\\f"
    else if c == '\n' then "\\n"
    else if c == '\r' then "\\r"
    else if c == '\t' then "\\t"
    else if c < ' ' || c == '<' || c == '>' || c == '&' || c as int == 0x2028 || c as int == 0x2029
    then "\\u" + Hex4(c as int)
    else [c]
  }

  function Escape(s: string): string {
    if s == "" then "" else EscapeChar(s[0]) + Escape(s[1..])
  }

  function Quote(s: string): string { "\"" + Escape(s) + "\"" }

  // ----- numbers -----

  predicate IsDigit(c: char) { '0' <= c <= '9' }

  function Digit(n: nat): char
    requires n < 10
  {
    ('0' as int + n) as char
  }

  function Decimal(n: nat): string {
    if n < 10 then [Digit(n)] else Decimal(n / 10) + [Digit(n % 10)]
  }

  function Integer(n: int): string {
    if n < 0 then "-" + Decimal(-n) else Decimal(n)
  }

  // ----- tokens -----

  function KeywordText(w: Keyword): string {
    match w
    case NullWord => "null"
    case TrueWord => "true"
    case FalseWord => "false"
  }

  function Spell(t: Token): string {
    match t
    case LBrace => "{"
    case RBrace => "}"
    case LBracket => "["
    case RBracket => "]"
    case Comma => ","
    case Colon => ":"
    case Word(w) => KeywordText(w)
    case Number(n) => Integer(n)
    case Literal(s) => Quote(s)
  }

  function Flatten<T>(f: T -> string, ts: seq<T>): string {
    if ts == [] then "" else f(ts[0]) + Flatten(f, ts[1..])
  }

  function Spelled(ts: seq<Token>): string { Flatten(Spell, ts) }

  // ----- reading tokens -----

  /** The characters of a string literal, after its opening quote. Surrogate escapes are refused. */
  function ParseChars(s: string): (r: Parsed<string>)
    ensures r.Ok? ==> |r.rest| < |s|
  {
    if s == "" then Fail
    else if s[0] == '"' then Ok("", s[1..])
    else if s[0] == '\\' then
      if |s| < 2 then Fail
      else if s[1] == 'u' then
        if |s| < 6 || !(forall i :: 2 <= i < 6 ==> IsHex(s[i])) then Fail
        else
          var code := Hex4Value(s[2..6]);
          if 0xD800 <= code < 0xE000 || code >= 0x10000 then Fail
          else ConsChar(code as char, ParseChars(s[6..]))
      else
        match Unescaped(s[1])
        case None => Fail
        case Some(c) => ConsChar(c, ParseChars(s[2..]))
    else if s[0] < ' ' then Fail
    else ConsChar(s[0], ParseChars(s[1..]))
  }

  function ConsChar(c: char, r: Parsed<string>): Parsed<string> {
    match r
    case Fail => Fail
    case Ok(t, rest) => Ok([c] + t, rest)
  }

  function Unescaped(c: char): Option<char> {
    if c == '"' || c == '\\' || c == '/' then Some(c)
    else if c == 'b' then Some(8 as char)
    else if c == 'f' then Some(12 as char)
    else if c == 'n' then Some('\n')
    else if c == 'r' then Some('\r')
    else if c == 't' then Some('\t')
    else None
  }

  function DigitPrefix(s: string): (n: nat)
    ensures n <= |s| && forall i :: 0 <= i < n ==> IsDigit(s[i])
  {
    if s == "" || !IsDigit(s[0]) then 0 else 1 + DigitPrefix(s[1..])
  }

  function DecimalValue(s: string): nat
    requires forall i :: 0 <= i < |s| ==> IsDigit(s[i])
  {
    if s == "" then 0
    else
      assert IsDigit(s[|s| - 1]);
      DecimalValue(s[..|s| - 1]) * 10 + (s[|s| - 1] as int - '0' as int)
  }

  /** An unsigned integer with no superfluous leading zero. */
  function ParseNat(s: string): (r: Parsed<nat>)
    ensures r.Ok? ==> |r.rest| < |s|
  {
    var n := DigitPrefix(s);
    if n == 0 || (n > 1 && s[0] == '0') then Fail
    else Ok(DecimalValue(s[..n]), s[n..])
  }

  predicate IsSpace(c: char) { c == ' ' || c == '\t' || c == '\n' || c == '\r' }

  function Punctuation(c: char): Option<Token> {
    if c == '{' then Some(LBrace)
    else if c == '}' then Some(RBrace)
    else if c == '[' then Some(LBracket)
    else if c == ']' then Some(RBracket)
    else if c == ',' then Some(Comma)
    else if c == ':' then Some(Colon)
    else None
  }

  function LexWord(s: string, w: Keyword): (r: Parsed<Token>)
    ensures r.Ok? ==> |r.rest| < |s|
  {
    if KeywordText(w) <= s then Ok(Word(w), s[|KeywordText(w)|..]) else Fail
  }

  function AsLiteral(r: Parsed<string>): Parsed<Token> {
    match r
    case Fail => Fail
    case Ok(t, rest) => Ok(Literal(t), rest)
  }

  function AsNumber(r: Parsed<nat>, negative: bool): Parsed<Token> {
    match r
    case Fail => Fail
    case Ok(n, rest) => Ok(Number(if negative then 0 - n else n), rest)
  }

  /** The first token of a text that does not start with white space. */
  function LexOne(s: string): (r: Parsed<Token>)
    requires s != ""
    ensures r.Ok? ==> |r.rest| < |s|
  {
    if Punctuation(s[0]).Some? then Ok(Punctuation(s[0]).value, s[1..])
    else if s[0] == 'n' then LexWord(s, NullWord)
    else if s[0] == 't' then LexWord(s, TrueWord)
    else if s[0] == 'f' then LexWord(s, FalseWord)
    else if s[0] == '"' then AsLiteral(ParseChars(s[1..]))
    else if s[0] == '-' then AsNumber(ParseNat(s[1..]), true)
    else AsNumber(ParseNat(s), false)
  }

  function Lex(s: string): Option<seq<Token>>
    decreases |s|
  {
    if s == "" then Some([])
    else if IsSpace(s[0]) then Lex(s[1..])
    else match LexOne(s)
      case Fail => None
      case Ok(t, rest) => match Lex(rest)
        case None => None
        case Some(ts) => Some([t] + ts)
  }

  // ----- reading back what was spelled -----

  lemma HexBack(n: nat)
    requires n < 0x10000
    ensures forall i :: 0 <= i < 4 ==> IsHex(Hex4(n)[i])
    ensures Hex4Value(Hex4(n)) == n
  {
    var n1 := n / 16;
    var n2 := n1 / 16;
    HexDigitBack(n2 / 16);
    HexDigitBack(n2 % 16);
    HexDigitBack(n1 % 16);
    HexDigitBack(n % 16);
  }

  lemma ParseEscapedChar(c: char, t: string)
    ensures ParseChars(EscapeChar(c) + t) == ConsChar(c, ParseChars(t))
  {
    var e := EscapeChar(c);
    if |e| == 1 {
      assert (e + t)[1..] == t;
    } else if |e| == 2 {
      assert (e + t)[2..] == t;
    } else {
      HexBack(c as int);
      assert (e + t)[2..6] == Hex4(c as int);
      assert (e + t)[6..] == t;
      assert forall i :: 2 <= i < 6 ==> (e + t)[i] == Hex4(c as int)[i - 2];
    }
  }

  /** The characters that json.Marshal writes in two characters, after a backslash. */
  const SHORT: set<char> := {'"', '\\', 8 as char, 12 as char, '\n', '\r', '\t'}

  /** The other characters that it does not write as they are. */
  predicate Spelt(c: char) {
    (c < ' ' && c !in SHORT) || c == '<' || c == '>' || c == '&' || c as int == 0x2028 || c as int == 0x2029
  }

  lemma Hex4Plain(n: nat)
    requires n < 0x10000
    ensures |Hex4(n)| == 4 && forall i :: 0 <= i < 4 ==> IsHex(Hex4(n)[i])
  {
    HexBack(n);
  }

  /** How long the spelling of a character is; ParseEscapedChar says which character it spells. */
  lemma EscapeLength(c: char)
    ensures |EscapeChar(c)| == if c in SHORT then 2 else if Spelt(c) then 6 else 1
    ensures c !in SHORT && !Spelt(c) ==> EscapeChar(c) == [c]
    ensures forall d :: d in EscapeChar(c) ==> !Spelt(d) && d >= ' '
  {
    if Spelt(c) {
      var h := Hex4(c as int);
      Hex4Plain(c as int);
      forall d | d in EscapeChar(c) ensures !Spelt(d) && d >= ' ' {
        assert d == '\\' || d == 'u' || d in h;
        if d in h { assert IsHex(d); }
      }
    }
  }

  /** Printed strings hold no control character, no line separator and no HTML character; strings
      without any such character, quote or backslash are printed as they are. */
  lemma {:induction false} EscapeSafe(s: string)
    ensures forall d :: d in Escape(s) ==> !Spelt(d) && d >= ' '
    ensures Escape(s) == s <==> forall d :: d in s ==> d !in SHORT && !Spelt(d)
    ensures |Escape(s)| >= |s|
  {
    if s != "" {
      var c, rest := s[0], s[1..];
      EscapeLength(c);
      EscapeSafe(rest);
      assert s == [c] + rest;
      if c in SHORT || Spelt(c) {
        assert |Escape(s)| > |s|;
      } else {
        assert Escape(s)[1..] == Escape(rest);
      }
    }
  }

  lemma {:induction false} ParseEscaped(s: string, rest: string)
    ensures ParseChars(Escape(s) + "\"" + rest) == Ok(s, rest)
  {
    if s == "" {
      assert Escape(s) + "\"" + rest == "\"" + rest;
      assert ("\"" + rest)[1..] == rest;
    } else {
      var t := Escape(s[1..]) + "\"" + rest;
      ParseEscaped(s[1..], rest);
      ParseEscapedChar(s[0], t);
      Regroup(EscapeChar(s[0]), Escape(s[1..]), "\"", rest);
      assert [s[0]] + s[1..] == s;
    }
  }

  lemma Regroup(a: string, b: string, c: string, d: string)
    ensures a + b + c + d == a + (b + c + d)
  {}

  lemma {:induction false} DecimalBack(n: nat)
    ensures |Decimal(n)| >= 1
    ensures forall i :: 0 <= i < |Decimal(n)| ==> IsDigit(Decimal(n)[i])
    ensures DecimalValue(Decimal(n)) == n
    ensures Decimal(n)[0] == '0' ==> n == 0
  {
    if n >= 10 {
      DecimalBack(n / 10);
      var s := Decimal(n);
      assert s[..|s| - 1] == Decimal(n / 10);
      assert s[|s| - 1] == Digit(n % 10);
    } else {
      assert DecimalValue([Digit(n)]) == DecimalValue([Digit(n)][..0]) * 10 + n;
    }
  }

  /** A number ends where the next character is not a digit. */
  predicate Ends(rest: string) { rest == "" || !IsDigit(rest[0]) }

  lemma {:induction false} DigitPrefixAll(s: string, rest: string)
    requires Ends(rest) && forall i :: 0 <= i < |s| ==> IsDigit(s[i])
    ensures DigitPrefix(s + rest) == |s|
  {
    if s == "" {
      assert s + rest == rest;
    } else {
      assert (s + rest)[1..] == s[1..] + rest;
      DigitPrefixAll(s[1..], rest);
    }
  }

  lemma ParseDecimal(n: nat, rest: string)
    requires Ends(rest)
    ensures ParseNat(Decimal(n) + rest) == Ok(n, rest)
  {
    DecimalBack(n);
    DigitPrefixAll(Decimal(n), rest);
    assert (Decimal(n) + rest)[..|Decimal(n)|] == Decimal(n);
    assert (Decimal(n) + rest)[|Decimal(n)|..] == rest;
  }

  lemma LexLiteral(s: string, t: string, rest: string)
    requires ParseChars(s) == Ok(t, rest)
    ensures LexOne("\"" + s) == Ok(Literal(t), rest)
  {
    assert ("\"" + s)[1..] == s;
  }

  lemma QuoteThen(a: string, b: string, rest: string)
    ensures "\"" + a + b + rest == "\"" + (a + b + rest)
  {}

  lemma LexString(t: string, rest: string)
    ensures LexOne(Quote(t) + rest) == Ok(Literal(t), rest)
  {
    ParseEscaped(t, rest);
    LexLiteral(Escape(t) + "\"" + rest, t, rest);
    QuoteThen(Escape(t), "\"", rest);
  }

  lemma LexSigned(s: string, n: nat, rest: string)
    requires ParseNat(s) == Ok(n, rest)
    ensures s != "" && IsDigit(s[0])
    ensures LexOne(s) == Ok(Number(n), rest)
    ensures LexOne("-" + s) == Ok(Number(0 - n), rest)
  {
    assert ("-" + s)[1..] == s;
  }

  lemma IntegerStarts(n: int)
    ensures Integer(n) != "" && (Integer(n)[0] == '-' || IsDigit(Integer(n)[0]))
  {
    DecimalBack(if n < 0 then -n else n);
  }

  lemma LexNumber(n: int, rest: string)
    requires Ends(rest)
    ensures LexOne(Integer(n) + rest) == Ok(Number(n), rest)
  {
    var m: nat := if n < 0 then -n else n;
    var s := Decimal(m) + rest;
    ParseDecimal(m, rest);
    LexSigned(s, m, rest);
    if n < 0 { assert Integer(n) + rest == "-" + s; }
  }

  lemma LexPunctuation(c: char, rest: string)
    requires Punctuation(c).Some?
    ensures LexOne([c] + rest) == Ok(Punctuation(c).value, rest)
  {
    assert ([c] + rest)[1..] == rest;
  }

  lemma LexKeyword(w: Keyword, rest: string)
    ensures LexOne(KeywordText(w) + rest) == Ok(Word(w), rest)
  {
    var s := KeywordText(w) + rest;
    assert s[0] == KeywordText(w)[0] && s[|KeywordText(w)|..] == rest;
    assert LexWord(s, w) == Ok(Word(w), rest);
  }

  /** How each token starts. */
  lemma SpellStarts(t: Token)
    ensures Spell(t) != "" && !IsSpace(Spell(t)[0])
    ensures t.Number? <==> Spell(t)[0] == '-' || IsDigit(Spell(t)[0])
  {
    if t.Number? { IntegerStarts(t.n); }
  }

  lemma LexSpelled(t: Token, rest: string)
    requires t.Number? ==> Ends(rest)
    ensures LexOne(Spell(t) + rest) == Ok(t, rest)
  {
    match t
    case LBrace => LexPunctuation('{', rest);
    case RBrace => LexPunctuation('}', rest);
    case LBracket => LexPunctuation('[', rest);
    case RBracket => LexPunctuation(']', rest);
    case Comma => LexPunctuation(',', rest);
    case Colon => LexPunctuation(':', rest);
    case Word(w) => LexKeyword(w, rest);
    case Number(n) => LexNumber(n, rest);
    case Literal(s) => LexString(s, rest);
  }

  /** No number directly follows a number. */
  ghost predicate Spaced(ts: seq<Token>) {
    forall i :: 0 <= i < |ts| - 1 ==> !(ts[i].Number? && ts[i + 1].Number?)
  }

  /** Tokens in which no number follows a number are read back from the text that spells them. */
  lemma {:induction false} LexBack(ts: seq<Token>)
    requires Spaced(ts)
    ensures Lex(Spelled(ts)) == Some(ts)
  {
    if ts != [] {
      var rest := Spelled(ts[1..]);
      assert Spaced(ts[1..]);
      LexBack(ts[1..]);
      if |ts| > 1 && ts[0].Number? {
        assert !ts[0 + 1].Number?;
        SpelledStarts(ts[1..]);
      }
      SpellStarts(ts[0]);
      LexSpelled(ts[0], rest);
      assert [ts[0]] + ts[1..] == ts;
    }
  }

  lemma SpelledStarts(ts: seq<Token>)
    requires ts != [] && !ts[0].Number?
    ensures Ends(Spelled(ts))
  {
    SpellStarts(ts[0]);
  }

  lemma {:induction false} FlattenConcat<T>(f: T -> string, a: seq<T>, b: seq<T>)
    ensures Flatten(f, a + b) == Flatten(f, a) + Flatten(f, b)
  {
    if a == [] {
      assert a + b == b;
    } else {
      FlattenConcat(f, a[1..], b);
      assert (a + b)[1..] == a[1..] + b && (a + b)[0] == a[0];
      Regroup(f(a[0]), Flatten(f, a[1..]), Flatten(f, b), "");
    }
  }

  lemma {:induction false} FlattenAvoids<T(!new)>(f: T -> string, ts: seq<T>, c: char)
    requires forall t :: c !in f(t)
    ensures c !in Flatten(f, ts)
  {
    if ts != [] { FlattenAvoids(f, ts[1..], c); }
  }

  // ----- a spelled text stays on one line -----

  lemma {:induction false} EscapeOneLine(s: string)
    ensures '\n' !in Escape(s)
  {
    if s != "" {
      EscapeOneLine(s[1..]);
      forall d: nat | d < 16 ensures HexDigit(d) != '\n' {}
      assert '\n' !in EscapeChar(s[0]);
    }
  }

  lemma SpellOneLine(t: Token)
    ensures '\n' !in Spell(t)
  {
    match t
    case Number(n) => DecimalBack(if n < 0 then -n else n);
    case Literal(s) => EscapeOneLine(s);
    case _ =>
  }

  lemma SpelledOneLine(ts: seq<Token>)
    ensures '\n' !in Spelled(ts)
  {
    forall t ensures '\n' !in Spell(t) { SpellOneLine(t); }
    FlattenAvoids(Spell, ts, '\n');
  }
}
