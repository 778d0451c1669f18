/** The dot-path language of custom integrations: `resolveDotPath` of
    `packages/core/src/custom-integration-normalize.ts` over JSON values, and the grammar of
    `packages/core/src/custom-integration-mapping.ts`.  */
module DotPath {
  import opened Options

  /** A JSON value; a number is kept as it renders. */
  datatype Value =
    | Null
    | Bool(b: bool)
    | Num(rendered: string)
    | Str(s: string)
    | Arr(items: seq<Value>)
    | Obj(fields: map<string, Value>)

  datatype Token = Key(name: string) | Index(digits: string)

  predicate IsDigit(c: char) { '0' <= c <= '9' }

  predicate IsStart(c: char) {
    'A' <= c <= 'Z' || 'a' <= c <= 'z' || c == '_' || c == '$'
  }

  predicate IsPart(c: char) {
    IsStart(c) || IsDigit(c) || c == '-'
  }

  /** The characters of a name: what it can begin with, and what can follow. */
  lemma {:induction false} NameCharacters(c: char)
    ensures IsStart(c) <==>
      c in "ABCDEFGHIJKLMNOPQRSTUVWXYZ" || c in "abcdefghijklmnopqrstuvwxyz" || c in "_$"
    ensures IsPart(c) <==> IsStart(c) || c in "0123456789-"
    ensures IsDigit(c) <==> c in "0123456789"
  {
    UpperCase(c);
    LowerCase(c);
    Digits(c);
  }

  lemma UpperCase(c: char)
    ensures 'A' <= c <= 'Z' <==> c in "ABCDEFGHIJKLMNOPQRSTUVWXYZ"
  {
    assert 'A' <= c <= 'Z' ==> "ABCDEFGHIJKLMNOPQRSTUVWXYZ"[c as int - 'A' as int] == c;
  }

  lemma LowerCase(c: char)
    ensures 'a' <= c <= 'z' <==> c in "abcdefghijklmnopqrstuvwxyz"
  {
    assert 'a' <= c <= 'z' ==> "abcdefghijklmnopqrstuvwxyz"[c as int - 'a' as int] == c;
  }

  lemma Digits(c: char)
    ensures '0' <= c <= '9' <==> c in "0123456789"
    ensures c in "0123456789-" <==> c in "0123456789" || c == '-'
  {
    assert '0' <= c <= '9' ==> "0123456789"[c as int - '0' as int] == c;
    assert "0123456789-" == "0123456789" + "-";
  }

  // ---------------------------------------------------------------------------
  // Scanning
  // ---------------------------------------------------------------------------

  /** How many characters `[A-Za-z0-9_$-]*` takes. */
  function PartRun(s: string): (n: nat)
    ensures n <= |s|
  {
    if s != "" && IsPart(s[0]) then 1 + PartRun(s[1..]) else 0
  }

  /** How many characters `\d*` takes. */
  function DigitRun(s: string): (n: nat)
    ensures n <= |s|
  {
    if s != "" && IsDigit(s[0]) then 1 + DigitRun(s[1..]) else 0
  }

  /** `[digits]` at the beginning. */
  predicate StartsWithIndex(s: string) {
    s != "" && s[0] == '[' && var d := DigitRun(s[1..]); d > 0 && d + 1 < |s| && s[d + 1] == ']'
  }

  /** `path.matchAll(TOKEN_RE)`: what matches nowhere is skipped. */
  function Tokens(path: string): seq<Token>
    decreases |path|
  {
    if path == "" then []
    else if IsStart(path[0]) then
      var n := PartRun(path);
      [Key(path[..n])] + Tokens(path[n..])
    else if StartsWithIndex(path) then
      var d := DigitRun(path[1..]);
      [Index(path[1..d + 1])] + Tokens(path[d + 2..])
    else Tokens(path[1..])
  }

  lemma {:induction false} PartRunStops(s: string, rest: string)
    requires forall c :: c in s ==> IsPart(c)
    requires rest == "" || !IsPart(rest[0])
    ensures PartRun(s + rest) == |s|
  {
    if s == "" {
      assert s + rest == rest;
    } else {
      PartRunStops(s[1..], rest);
      assert (s + rest)[1..] == s[1..] + rest;
    }
  }

  lemma {:induction false} DigitRunStops(s: string, rest: string)
    requires forall c :: c in s ==> IsDigit(c)
    requires rest == "" || !IsDigit(rest[0])
    ensures DigitRun(s + rest) == |s|
  {
    if s == "" {
      assert s + rest == rest;
    } else {
      DigitRunStops(s[1..], rest);
      assert (s + rest)[1..] == s[1..] + rest;
    }
  }

  // ---------------------------------------------------------------------------
  // The grammar
  // ---------------------------------------------------------------------------

  datatype Segment = Segment(name: string, indices: seq<string>)

  ghost predicate IsName(name: string) {
    name != "" && IsStart(name[0]) && forall c :: c in name ==> IsPart(c)
  }

  ghost predicate IsNumber(digits: string) {
    digits != "" && forall c :: c in digits ==> IsDigit(c)
  }

  ghost predicate ValidSegment(s: Segment) {
    IsName(s.name) && forall i :: 0 <= i < |s.indices| ==> IsNumber(s.indices[i])
  }

  ghost predicate ValidPath(path: seq<Segment>) {
    path != [] && forall i :: 0 <= i < |path| ==> ValidSegment(path[i])
  }

  function RenderIndices(indices: seq<string>): string {
    if indices == [] then "" else RenderIndex(indices[0]) + RenderIndices(indices[1..])
  }

  function RenderIndex(digits: string): string {
    "[" + digits + "]"
  }

  function RenderSegment(s: Segment): string {
    s.name + RenderIndices(s.indices)
  }

  function Render(path: seq<Segment>): string {
    if path == [] then ""
    else if |path| == 1 then RenderSegment(path[0])
    else RenderSegment(path[0]) + "." + Render(path[1..])
  }

  function IndexTokens(indices: seq<string>): seq<Token> {
    if indices == [] then [] else [Index(indices[0])] + IndexTokens(indices[1..])
  }

  function PathTokens(path: seq<Segment>): seq<Token> {
    if path == [] then [] else [Key(path[0].name)] + IndexTokens(path[0].indices) + PathTokens(path[1..])
  }

  lemma NameScan(name: string, rest: string)
    requires IsName(name) && (rest == "" || !IsPart(rest[0]))
    ensures Tokens(name + rest) == [Key(name)] + Tokens(rest)
  {
    PartRunStops(name, rest);
    assert (name + rest)[..|name|] == name && (name + rest)[|name|..] == rest;
  }

  lemma IndexScan(digits: string, rest: string)
    requires IsNumber(digits)
    ensures Tokens(RenderIndex(digits) + rest) == [Index(digits)] + Tokens(rest)
  {
    var s := RenderIndex(digits) + rest;
    DigitRunStops(digits, "]" + rest);
    assert s[1..] == digits + ("]" + rest);
    assert s[1..|digits| + 1] == digits && s[|digits| + 2..] == rest;
  }

  lemma {:induction false} IndicesScan(indices: seq<string>, rest: string)
    requires forall i :: 0 <= i < |indices| ==> IsNumber(indices[i])
    ensures Tokens(RenderIndices(indices) + rest) == IndexTokens(indices) + Tokens(rest)
  {
    if indices == [] {
      assert RenderIndices(indices) + rest == rest;
    } else {
      IndicesScan(indices[1..], rest);
      IndexScan(indices[0], RenderIndices(indices[1..]) + rest);
      Regrouped(RenderIndex(indices[0]), RenderIndices(indices[1..]), rest);
      TokensRegrouped([Index(indices[0])], IndexTokens(indices[1..]), Tokens(rest));
    }
  }

  lemma Regrouped(a: string, b: string, c: string)
    ensures a + b + c == a + (b + c)
  {
  }

  lemma TokensRegrouped(a: seq<Token>, b: seq<Token>, c: seq<Token>)
    ensures a + b + c == a + (b + c)
  {
  }

  lemma SegmentScan(s: Segment, rest: string)
    requires ValidSegment(s) && (rest == "" || !IsPart(rest[0]))
    ensures Tokens(RenderSegment(s) + rest) == [Key(s.name)] + IndexTokens(s.indices) + Tokens(rest)
  {
    var tail := RenderIndices(s.indices) + rest;
    Regrouped(s.name, RenderIndices(s.indices), rest);
    IndicesEndName(s.indices, rest);
    NameScan(s.name, tail);
    IndicesScan(s.indices, rest);
    TokensRegrouped([Key(s.name)], IndexTokens(s.indices), Tokens(rest));
  }

  /** After a name come brackets or whatever follows the segment. */
  lemma IndicesEndName(indices: seq<string>, rest: string)
    requires rest == "" || !IsPart(rest[0])
    ensures var tail := RenderIndices(indices) + rest; tail == "" || !IsPart(tail[0])
  {
    if indices == [] {
      assert RenderIndices(indices) + rest == rest;
    } else {
      assert RenderIndices(indices)[0] == '[';
    }
  }

  /** The token scan of a path in the grammar recovers its segments and indices. */
  lemma {:induction false} ScanRecovers(path: seq<Segment>)
    requires ValidPath(path)
    ensures Tokens(Render(path)) == PathTokens(path)
  {
    if |path| == 1 {
      SegmentScan(path[0], "");
      assert RenderSegment(path[0]) + "" == Render(path);
      assert PathTokens(path[1..]) == [];
    } else {
      var rest := Render(path[1..]);
      ScanRecovers(path[1..]);
      SegmentScan(path[0], "." + rest);
      assert Render(path) == RenderSegment(path[0]) + ("." + rest);
      assert ("." + rest)[1..] == rest;
    }
  }

  // ---------------------------------------------------------------------------
  // A dot separates any two paths
  // ---------------------------------------------------------------------------

  lemma {:induction false} PartRunBeforeDot(p: string, q: string)
    ensures PartRun(p + "." + q) == PartRun(p)
  {
    if p != "" {
      PartRunBeforeDot(p[1..], q);
      assert (p + "." + q)[1..] == p[1..] + "." + q;
    }
  }

  lemma {:induction false} DigitRunBeforeDot(p: string, q: string)
    ensures DigitRun(p + "." + q) == DigitRun(p)
  {
    if p != "" {
      DigitRunBeforeDot(p[1..], q);
      assert (p + "." + q)[1..] == p[1..] + "." + q;
    }
  }

  lemma DropBeforeDot(p: string, q: string, n: nat)
    requires n <= |p|
    ensures (p + "." + q)[n..] == p[n..] + "." + q
    ensures (p + "." + q)[..n] == p[..n]
  {
  }

  lemma IndexBeforeDot(p: string, q: string)
    requires p != ""
    ensures StartsWithIndex(p + "." + q) <==> StartsWithIndex(p)
  {
    DropBeforeDot(p, q, 1);
    DigitRunBeforeDot(p[1..], q);
  }

  /** For any two strings at all. */
  lemma {:induction false} DotSeparates(p: string, q: string)
    ensures Tokens(p + "." + q) == Tokens(p) + Tokens(q)
    decreases |p|
  {
    var whole := p + "." + q;
    if p == "" {
      assert whole[1..] == q;
    } else if IsStart(p[0]) {
      var n := PartRun(p);
      PartRunBeforeDot(p, q);
      DropBeforeDot(p, q, n);
      DotSeparates(p[n..], q);
    } else {
      IndexBeforeDot(p, q);
      if StartsWithIndex(p) {
        var d := DigitRun(p[1..]);
        DropBeforeDot(p, q, 1);
        DigitRunBeforeDot(p[1..], q);
        DropBeforeDot(p, q, d + 2);
        DotSeparates(p[d + 2..], q);
        assert whole[1..d + 1] == p[1..d + 1];
      } else {
        DropBeforeDot(p, q, 1);
        DotSeparates(p[1..], q);
      }
    }
  }

  // ---------------------------------------------------------------------------
  // Resolving
  // ---------------------------------------------------------------------------

  function Number(digits: string): nat {
    if digits == "" then 0
    else
      var c := digits[|digits| - 1];
      10 * Number(digits[..|digits| - 1]) + if IsDigit(c) then c as nat - '0' as nat else 0
  }

  function Child(v: Value, t: Token): Option<Value> {
    match t
    case Key(name) => if v.Obj? && name in v.fields then Some(v.fields[name]) else None
    case Index(digits) => if v.Arr? && Number(digits) < |v.items| then Some(v.items[Number(digits)]) else None
  }

  function Walk(v: Value, tokens: seq<Token>): Option<Value> {
    if tokens == [] then Some(v)
    else
      match Child(v, tokens[0])
      case None => None
      case Some(u) => Walk(u, tokens[1..])
  }

  function Resolve(v: Value, path: string): Option<Value> {
    Walk(v, Tokens(path))
  }

  method ResolveDotPath(payload: Value, path: string) returns (r: Option<Value>)
    ensures r == Resolve(payload, path)
  {
    var cur := payload;
    var tokens := Tokens(path);
    for i := 0 to |tokens|
      invariant Walk(payload, tokens) == Walk(cur, tokens[i..])
    {
      var m := tokens[i];
      assert tokens[i..][1..] == tokens[i + 1..];
      if !cur.Arr? && !cur.Obj? {
        return None;
      }
      match m {
        case Key(name) =>
          if cur.Arr? || name !in cur.fields {
            return None;
          }
          cur := cur.fields[name];
        case Index(digits) =>
          var idx := Number(digits);
          if !cur.Arr? || idx >= |cur.items| {
            return None;
          }
          cur := cur.items[idx];
      }
    }
    return Some(cur);
  }

  lemma {:induction false} WalkAppend(v: Value, s: seq<Token>, t: seq<Token>)
    ensures Walk(v, s + t) == match Walk(v, s) { case None => None case Some(u) => Walk(u, t) }
  {
    if s == [] {
      assert s + t == t;
    } else {
      assert (s + t)[1..] == s[1..] + t;
      if Child(v, s[0]).Some? {
        WalkAppend(Child(v, s[0]).value, s[1..], t);
      }
    }
  }

  /** Resolving `p.q` is resolving `q` in what `p` resolves to. */
  lemma {:induction false} ResolveComposes(v: Value, p: string, q: string)
    ensures Resolve(v, p + "." + q) == match Resolve(v, p) { case None => None case Some(u) => Resolve(u, q) }
  {
    DotSeparates(p, q);
    WalkAppend(v, Tokens(p), Tokens(q));
  }

  // ---------------------------------------------------------------------------
  // What a path means
  // ---------------------------------------------------------------------------

  /** One step into a value: a field of an object, or an item of an array. */
  datatype Way = Field(name: string) | Item(i: nat)

  /** The value at the end of the steps. */
  function Follow(v: Value, ways: seq<Way>): Option<Value> {
    if ways == [] then Some(v)
    else
      match ways[0]
      case Field(name) =>
        if v.Obj? && name in v.fields then Follow(v.fields[name], ways[1..]) else None
      case Item(i) =>
        if v.Arr? && i < |v.items| then Follow(v.items[i], ways[1..]) else None
  }

  /** A number in decimal, without leading zeros. */
  function Decimal(n: nat): string {
    if n < 10 then [Digit(n)] else Decimal(n / 10) + [Digit(n % 10)]
  }

  function Digit(d: nat): char
    requires d < 10
  {
    "0123456789"[d]
  }

  /** The path as it is written: fields joined by dots, items in brackets. */
  function Written(ways: seq<Way>): string {
    if ways == [] then ""
    else WrittenWay(ways[0]) + (Joint(ways[1..]) + Written(ways[1..]))
  }

  function WrittenWay(way: Way): string {
    match way
    case Field(name) => name
    case Item(i) => "[" + Decimal(i) + "]"
  }

  function Joint(ways: seq<Way>): string {
    if ways != [] && ways[0].Field? then "." else ""
  }

  ghost predicate Nameable(ways: seq<Way>) {
    forall i :: 0 <= i < |ways| && ways[i].Field? ==> IsName(ways[i].name)
  }

  lemma DigitValue(d: nat)
    requires d < 10
    ensures IsDigit(Digit(d)) && Digit(d) as nat - '0' as nat == d
  {
  }

  lemma {:induction false} NumberOfDecimal(n: nat)
    ensures IsNumber(Decimal(n)) && Number(Decimal(n)) == n
  {
    if n < 10 {
      DigitValue(n);
      assert [Digit(n)][..0] == "";
    } else {
      NumberOfDecimal(n / 10);
      DigitValue(n % 10);
      assert (Decimal(n / 10) + [Digit(n % 10)])[..|Decimal(n / 10)|] == Decimal(n / 10);
    }
  }

  function TokensOf(ways: seq<Way>): seq<Token> {
    if ways == [] then [] else [TokenOf(ways[0])] + TokensOf(ways[1..])
  }

  function TokenOf(way: Way): Token {
    match way
    case Field(name) => Key(name)
    case Item(n) => Index(Decimal(n))
  }

  lemma WayScan(way: Way, rest: string)
    requires (way.Field? ==> IsName(way.name)) && (rest == "" || !IsPart(rest[0]))
    ensures Tokens(WrittenWay(way) + rest) == [TokenOf(way)] + Tokens(rest)
    ensures way.Item? ==> WrittenWay(way)[0] == '['
  {
    match way
    case Field(name) => NameScan(name, rest);
    case Item(i) =>
      NumberOfDecimal(i);
      IndexScan(Decimal(i), rest);
  }

  lemma {:induction false} WrittenScan(ways: seq<Way>)
    requires Nameable(ways)
    ensures Tokens(Written(ways)) == TokensOf(ways)
    ensures Written(ways) != "" && !ways[0].Field? ==> Written(ways)[0] == '['
  {
    if ways != [] {
      WrittenScan(ways[1..]);
      JointScan(ways[1..]);
      WayScan(ways[0], Joint(ways[1..]) + Written(ways[1..]));
    }
  }

  lemma JointScan(ways: seq<Way>)
    requires Nameable(ways) && (Written(ways) != "" && !ways[0].Field? ==> Written(ways)[0] == '[')
    ensures var rest := Joint(ways) + Written(ways);
      Tokens(rest) == Tokens(Written(ways)) && (rest == "" || !IsPart(rest[0]))
  {
    var rest := Joint(ways) + Written(ways);
    if ways != [] && ways[0].Field? {
      assert rest[1..] == Written(ways);
    } else {
      assert rest == Written(ways);
      assert ways == [] ==> Written(ways) == "";
    }
  }

  /** A path leads where its fields and items lead, one after the other, and nowhere if one is missing. */
  lemma {:induction false} ResolveFollows(v: Value, ways: seq<Way>)
    requires Nameable(ways)
    ensures Resolve(v, Written(ways)) == Follow(v, ways)
  {
    WrittenScan(ways);
    WalkFollows(v, ways);
  }

  lemma {:induction false} WalkFollows(v: Value, ways: seq<Way>)
    ensures Walk(v, TokensOf(ways)) == Follow(v, ways)
  {
    if ways != [] {
      if ways[0].Item? {
        NumberOfDecimal(ways[0].i);
      }
      var child := Child(v, TokenOf(ways[0]));
      if child.Some? {
        WalkFollows(child.value, ways[1..]);
      }
    }
  }
}
