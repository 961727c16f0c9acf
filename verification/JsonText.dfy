/**
 Concrete JSON texts: the grammar of RFC 8259 (sections 2 to 7) as syntax trees that
 keep every insignificant blank and every escape as written, plus the one defect the
 repairer is for, a comma before a closing bracket.  `Print` gives the exact text.
 */
module JsonText {

  /** One unit of a string literal: a character as it is, a two-character escape, or `\uXXXX`. */
  datatype Unit = Plain(c: char) | Escape(c: char) | Hex(digits: string)

  /** What stands before a closing bracket: a stray comma or none, then blanks. */
  datatype Tail = Tail(comma: bool, blanks: string)

  datatype Json =
    | Atom(token: string)
    | Text(units: seq<Unit>)
    | Array(items: Items, tail: Tail)
    | Object(members: Members, tail: Tail)

  datatype Items = NoItems | Item(before: string, value: Json, after: string, rest: Items)

  datatype Members =
    | NoMembers
    | Member(before: string, key: seq<Unit>, colon: string, value: Json, after: string, rest: Members)

  // ---------------------------------------------------------------- printing

  function PrintUnit(u: Unit): string {
    match u
    case Plain(c) => [c]
    case Escape(c) => ['\\', c]
    case Hex(d) => ['\\', 'u'] + d
  }

  function PrintUnits(us: seq<Unit>): string {
    if us == [] then "" else PrintUnit(us[0]) + PrintUnits(us[1..])
  }

  function PrintText(us: seq<Unit>): string { "\"" + (PrintUnits(us) + "\"") }

  function PrintTail(t: Tail): string { (if t.comma then "," else "") + t.blanks }

  function Print(v: Json): string {
    match v
    case Atom(token) => token
    case Text(us) => PrintText(us)
    case Array(items, tail) => "[" + (PrintItems(items) + (PrintTail(tail) + "]"))
    case Object(members, tail) => "{" + (PrintMembers(members) + (PrintTail(tail) + "}"))
  }

  function PrintItems(items: Items): string {
    match items
    case NoItems => ""
    case Item(b, v, a, rest) =>
      b + (Print(v) + (a + (if rest.NoItems? then "" else "," + PrintItems(rest))))
  }

  /** `colon` holds the blanks on both sides of the name separator, with it. */
  function PrintMembers(members: Members): string {
    match members
    case NoMembers => ""
    case Member(b, k, c, v, a, rest) =>
      b + (PrintText(k) + (c + (Print(v) + (a + (if rest.NoMembers? then "" else "," + PrintMembers(rest))))))
  }

  // ---------------------------------------------------------------- well-formedness

  predicate Opens(c: char) { c == '{' || c == '[' }

  predicate Shuts(c: char) { c == '}' || c == ']' }

  predicate IsBlank(c: char) { c == ' ' || c == '\t' || c == '\n' || c == '\r' }

  predicate Blanks(s: string) { forall i :: 0 <= i < |s| ==> IsBlank(s[i]) }

  predicate IsDigit(c: char) { '0' <= c <= '9' }

  predicate IsHex(c: char) { IsDigit(c) || 'a' <= c <= 'f' || 'A' <= c <= 'F' }

  predicate UnitOk(u: Unit) {
    match u
    case Plain(c) => c != '"' && c != '\\'
    case Escape(c) => c in "\"\\/bfnrt"
    case Hex(d) => |d| == 4 && forall i :: 0 <= i < 4 ==> IsHex(d[i])
  }

  predicate UnitsOk(us: seq<Unit>) { forall i :: 0 <= i < |us| ==> UnitOk(us[i]) }

  predicate Digits(s: string) { |s| > 0 && forall i :: 0 <= i < |s| ==> IsDigit(s[i]) }

  predicate IsInt(s: string) { Digits(s) && (s[0] == '0' ==> |s| == 1) }

  predicate IsSignedInt(s: string) { IsInt(s) || (|s| > 1 && s[0] == '-' && IsInt(s[1..])) }

  predicate IsFraction(s: string) { s == "" || (s[0] == '.' && Digits(s[1..])) }

  predicate IsExponent(s: string) {
    s == "" || ((s[0] == 'e' || s[0] == 'E')
                && (Digits(s[1..]) || (|s| > 1 && (s[1] == '+' || s[1] == '-') && Digits(s[2..]))))
  }

  predicate IsNumber(s: string) {
    exists i, j :: 0 <= i <= j <= |s| && IsSignedInt(s[..i]) && IsFraction(s[i..j]) && IsExponent(s[j..])
  }

  /** Literal names and numbers, and the three extra constants Python's decoder takes. */
  predicate AtomOk(s: string) {
    s == "true" || s == "false" || s == "null" || s == "NaN" || s == "Infinity" || s == "-Infinity" || IsNumber(s)
  }

  predicate ColonOk(c: string) {
    exists i :: 0 <= i < |c| && c[i] == ':' && Blanks(c[..i]) && Blanks(c[i + 1..])
  }

  predicate Valid(v: Json) {
    match v
    case Atom(token) => AtomOk(token)
    case Text(us) => UnitsOk(us)
    case Array(items, tail) => ValidItems(items) && Blanks(tail.blanks) && (tail.comma ==> items.Item?)
    case Object(members, tail) => ValidMembers(members) && Blanks(tail.blanks) && (tail.comma ==> members.Member?)
  }

  predicate ValidItems(items: Items) {
    items.Item? ==> Blanks(items.before) && Valid(items.value) && Blanks(items.after) && ValidItems(items.rest)
  }

  predicate ValidMembers(members: Members) {
    members.Member? ==>
      && Blanks(members.before) && UnitsOk(members.key) && ColonOk(members.colon)
      && Valid(members.value) && Blanks(members.after) && ValidMembers(members.rest)
  }

  /** The same text without its stray commas. */
  function Clean(v: Json): Json {
    match v
    case Atom(_) => v
    case Text(_) => v
    case Array(items, tail) => Array(CleanItems(items), Tail(false, tail.blanks))
    case Object(members, tail) => Object(CleanMembers(members), Tail(false, tail.blanks))
  }

  function CleanItems(items: Items): Items {
    match items
    case NoItems => NoItems
    case Item(b, v, a, rest) => Item(b, Clean(v), a, CleanItems(rest))
  }

  function CleanMembers(members: Members): Members {
    match members
    case NoMembers => NoMembers
    case Member(b, k, c, v, a, rest) => Member(b, k, c, Clean(v), a, CleanMembers(rest))
  }

  /** The value a text stands for: blanks and stray commas carry no meaning. */
  datatype Value =
    | Token(token: string)
    | Str(units: seq<Unit>)
    | List(elements: seq<Value>)
    | Dict(pairs: seq<(seq<Unit>, Value)>)

  function Meaning(v: Json): Value {
    match v
    case Atom(token) => Token(token)
    case Text(us) => Str(us)
    case Array(items, _) => List(Elements(items))
    case Object(members, _) => Dict(Pairs(members))
  }

  function Elements(items: Items): seq<Value> {
    match items
    case NoItems => []
    case Item(_, v, _, rest) => [Meaning(v)] + Elements(rest)
  }

  function Pairs(members: Members): seq<(seq<Unit>, Value)> {
    match members
    case NoMembers => []
    case Member(_, k, _, v, _, rest) => [(k, Meaning(v))] + Pairs(rest)
  }

  // ---------------------------------------------------------------- tokens

  /** A character that neither opens, closes, separates nor quotes. */
  predicate Bare(c: char) { c != '"' && c != '{' && c != '[' && c != '}' && c != ']' && c != ',' }

  predicate AllBare(s: string) { forall i :: 0 <= i < |s| ==> Bare(s[i]) }

  lemma JoinBare(a: string, b: string)
    requires AllBare(a) && AllBare(b)
    ensures AllBare(a + b)
  {
  }

  /** A character of a literal name or number: neither structural nor blank. */
  predicate Solid(c: char) { Bare(c) && !IsBlank(c) }

  predicate AllSolid(s: string) { forall i :: 0 <= i < |s| ==> Solid(s[i]) }

  lemma JoinSolid(a: string, b: string)
    requires AllSolid(a) && AllSolid(b)
    ensures AllSolid(a + b)
  {
  }

  lemma DigitsAreSolid(s: string)
    requires Digits(s)
    ensures AllSolid(s)
  {
  }

  lemma SignedIntIsSolid(s: string)
    requires IsSignedInt(s)
    ensures |s| > 0 && AllSolid(s)
  {
    if IsInt(s) {
      DigitsAreSolid(s);
    } else {
      DigitsAreSolid(s[1..]);
      JoinSolid(s[..1], s[1..]);
      assert s == s[..1] + s[1..];
    }
  }

  lemma FractionIsSolid(s: string)
    requires IsFraction(s)
    ensures AllSolid(s)
  {
    if s != "" {
      DigitsAreSolid(s[1..]);
      JoinSolid(s[..1], s[1..]);
      assert s == s[..1] + s[1..];
    }
  }

  lemma ExponentIsSolid(s: string)
    requires IsExponent(s)
    ensures AllSolid(s)
  {
    if s != "" {
      var k := if Digits(s[1..]) then 1 else 2;
      DigitsAreSolid(s[k..]);
      JoinSolid(s[..k], s[k..]);
      assert s == s[..k] + s[k..];
    }
  }

  /** A literal name or number is not empty, has no structural character and no blank. */
  lemma AtomIsSolid(s: string)
    requires AtomOk(s)
    ensures |s| > 0 && AllSolid(s)
  {
    if IsNumber(s) {
      NumberIsSolid(s);
    }
  }

  lemma NumberIsSolid(s: string)
    requires IsNumber(s)
    ensures |s| > 0 && AllSolid(s)
  {
    var a, b, c := NumberParts(s);
    SignedIntIsSolid(a);
    FractionIsSolid(b);
    ExponentIsSolid(c);
    JoinSolid(a, b);
    JoinSolid(a + b, c);
  }

  lemma AtomIsBare(s: string)
    requires AtomOk(s)
    ensures |s| > 0 && AllBare(s) && !IsBlank(s[0])
  {
    AtomIsSolid(s);
    hide AtomOk;
    assert Solid(s[0]);
  }

  lemma NumberParts(s: string) returns (a: string, b: string, c: string)
    requires IsNumber(s)
    ensures s == a + b + c && IsSignedInt(a) && IsFraction(b) && IsExponent(c)
  {
    hide IsSignedInt, IsFraction, IsExponent;
    var i, j :| 0 <= i <= j <= |s| && IsSignedInt(s[..i]) && IsFraction(s[i..j]) && IsExponent(s[j..]);
    a, b, c := s[..i], s[i..j], s[j..];
  }

  lemma ColonIsBare(c: string)
    requires ColonOk(c)
    ensures AllBare(c)
  {
    var i :| 0 <= i < |c| && c[i] == ':' && Blanks(c[..i]) && Blanks(c[i + 1..]);
    JoinBare(c[..i], [c[i]]);
    JoinBare(c[..i] + [c[i]], c[i + 1..]);
    assert c == c[..i] + [c[i]] + c[i + 1..];
  }
}
