/**
 `extract_json_object`: pull the first balanced object or array out of a model reply
 that may carry prose around it or sit in a code fence.  The scanner is one pass over
 the characters with a bracket depth and two string flags.
 */
module JsonExtract {
  import opened JsonText

  // ---------------------------------------------------------------- str.strip

  /** What `str.strip()` removes. */
  predicate IsSpace(c: char) {
    || '\t' <= c <= '\r' || '\U{1C}' <= c <= ' ' || c == '\U{85}' || c == '\U{A0}' || c == '\U{1680}'
    || '\U{2000}' <= c <= '\U{200A}' || c == '\U{2028}' || c == '\U{2029}' || c == '\U{202F}'
    || c == '\U{205F}' || c == '\U{3000}'
  }

  function LStrip(s: string): (r: string)
    ensures |r| <= |s| && r == s[|s| - |r|..]
  {
    if s != "" && IsSpace(s[0]) then LStrip(s[1..]) else s
  }

  function RStrip(s: string): (r: string)
    ensures r <= s
  {
    if s != "" && IsSpace(s[|s| - 1]) then RStrip(s[..|s| - 1]) else s
  }

  function Strip(s: string): string { RStrip(LStrip(s)) }

  // ---------------------------------------------------------------- the fence

  const FENCE: string := "```"

  /** Index of the first fence, or the length of the text. */
  function FenceAt(s: string): (k: nat)
    ensures k <= |s|
    ensures k < |s| ==> FENCE <= s[k..]
    ensures forall i :: 0 <= i < k ==> !(FENCE <= s[i..])
  {
    if s == "" || FENCE <= s then 0
    else
      assert forall i :: 1 <= i <= |s| ==> s[i..] == s[1..][i - 1..];
      FenceAt(s[1..]) + 1
  }

  predicate HasFence(s: string) { FenceAt(s) < |s| }

  function Lower(c: char): char {
    if 'A' <= c <= 'Z' then ((c as int) + 32) as char else c
  }

  /** Drop a language tag `json` in any case. */
  function DropTag(s: string): string {
    if |s| >= 4 && Lower(s[0]) == 'j' && Lower(s[1]) == 's' && Lower(s[2]) == 'o' && Lower(s[3]) == 'n'
    then s[4..] else s
  }

  /** The text the scanner looks at. */
  function Body(text: string): string {
    var s := Strip(text);
    if FENCE <= s then
      var b := DropTag(s[3..]);
      Strip(b[..FenceAt(b)])
    else s
  }

  // ---------------------------------------------------------------- what the two steps do

  /** The code points `str.strip()` removes. */
  const SPACES: set<int> := {9, 10, 11, 12, 13, 28, 29, 30, 31, 32, 133, 160, 5760, 8192, 8193, 8194, 8195, 8196, 8197, 8198,
                             8199, 8200, 8201, 8202, 8232, 8233, 8239, 8287, 12288}

  lemma SpaceIff(c: char)
    ensures IsSpace(c) <==> c as int in SPACES
  {
  }

  predicate AllSpaces(s: string) { forall i :: 0 <= i < |s| ==> s[i] as int in SPACES }

  /** `t` is `s` without the spaces at its ends. */
  predicate Stripped(s: string, t: string, i: nat) {
    && i + |t| <= |s| && t == s[i..i + |t|]
    && AllSpaces(s[..i]) && AllSpaces(s[i + |t|..])
    && (t != "" ==> t[0] as int !in SPACES && t[|t| - 1] as int !in SPACES)
  }

  lemma SpacesJoin(a: string, b: string)
    requires AllSpaces(a) && AllSpaces(b)
    ensures AllSpaces(a + b)
  {
    hide SPACES;
  }

  lemma OneSpace(c: char)
    ensures AllSpaces([c]) <==> IsSpace(c)
  {
    SpaceIff(c);
    assert [c][0] == c;
  }

  lemma {:induction false} LStripIs(s: string)
    ensures AllSpaces(s[..|s| - |LStrip(s)|])
    ensures LStrip(s) != "" ==> !IsSpace(LStrip(s)[0])
    decreases |s|
  {
    hide AllSpaces, IsSpace;
    NoSpaces();
    if s == "" || !IsSpace(s[0]) {
      assert s[..0] == "";
    } else {
      LStripIs(s[1..]);
      var n := |s| - |LStrip(s)|;
      OneSpace(s[0]);
      SpacesJoin([s[0]], s[1..][..n - 1]);
      assert s[..n] == [s[0]] + s[1..][..n - 1];
    }
  }

  lemma {:induction false} RStripIs(s: string)
    ensures AllSpaces(s[|RStrip(s)|..])
    ensures RStrip(s) != "" ==> !IsSpace(RStrip(s)[|RStrip(s)| - 1])
    decreases |s|
  {
    hide AllSpaces, IsSpace;
    NoSpaces();
    if s == "" || !IsSpace(s[|s| - 1]) {
      assert s[|s|..] == "";
    } else {
      var n := |s| - 1;
      RStripIs(s[..n]);
      OneSpace(s[n]);
      SpacesJoin(s[..n][|RStrip(s)|..], [s[n]]);
      assert s[|RStrip(s)|..] == s[..n][|RStrip(s)|..] + [s[n]];
    }
  }

  lemma NoSpaces()
    ensures AllSpaces("")
  {
  }

  /** Stripping takes exactly the spaces off both ends. */
  lemma StripIs(s: string) returns (i: nat)
    ensures Stripped(s, Strip(s), i)
  {
    LStripIs(s);
    RStripIs(LStrip(s));
    hide IsSpace, LStrip, RStrip, AllSpaces, SPACES;
    var l, t := LStrip(s), Strip(s);
    i := |s| - |l|;
    assert s[i + |t|..] == l[|t|..];
    if t != "" {
      assert l[0] == t[0];
      SpaceIff(t[0]);
      SpaceIff(t[|t| - 1]);
    }
  }

  /** The tag is the four letters in either case. */
  lemma TagIff(s: string)
    ensures DropTag(s) ==
      if |s| >= 4 && s[0] in "jJ" && s[1] in "sS" && s[2] in "oO" && s[3] in "nN" then s[4..] else s
  {
  }

  /** What is scanned: the stripped text when no three backquotes open it; else what stands between them
      and the next three, or the end, without the tag and stripped again. */
  lemma BodyIs(text: string) returns (k: nat)
    ensures var s := Strip(text);
      if |s| >= 3 && s[0] == '`' && s[1] == '`' && s[2] == '`' then
        var b := DropTag(s[3..]);
        && k <= |b| && Body(text) == Strip(b[..k])
        && (k < |b| ==> "```" <= b[k..]) && (forall i :: 0 <= i < k ==> !("```" <= b[i..]))
      else Body(text) == s
  {
    hide Strip, DropTag;
    var s := Strip(text);
    k := if |s| >= 3 then FenceAt(DropTag(s[3..])) else 0;
    assert FENCE <= s <==> |s| >= 3 && s[0] == '`' && s[1] == '`' && s[2] == '`' by { OpensFence(s); }
  }

  lemma OpensFence(s: string)
    ensures FENCE <= s <==> |s| >= 3 && s[0] == '`' && s[1] == '`' && s[2] == '`'
  {
    if |s| >= 3 && s[0] == '`' && s[1] == '`' && s[2] == '`' { assert s[..3] == FENCE; }
  }

  // ---------------------------------------------------------------- the scanner

  datatype Scan = Scan(depth: int, inStr: bool, esc: bool)

  function Out(d: int): Scan { Scan(d, false, false) }

  function Advance(s: Scan, c: char): Scan {
    if s.inStr then
      if s.esc then s.(esc := false)
      else if c == '\\' then s.(esc := true)
      else if c == '"' then s.(inStr := false)
      else s
    else if c == '"' then s.(inStr := true)
    else if Opens(c) then s.(depth := s.depth + 1)
    else if Shuts(c) then s.(depth := s.depth - 1)
    else s
  }

  /** The scan ends at a closing bracket outside strings that brings the depth to 0. */
  predicate Ends(s: Scan, c: char) { !s.inStr && Shuts(c) && s.depth == 1 }

  /** How much is taken: up to and with the ending bracket, or all when there is none. */
  function Taken(s: Scan, text: string): (n: nat)
    ensures n <= |text|
    decreases text
  {
    if text == "" then 0
    else if Ends(s, text[0]) then 1
    else 1 + Taken(Advance(s, text[0]), text[1..])
  }

  /** Index of the first opening bracket, or the length of the text. */
  function OpenerAt(s: string): (k: nat)
    ensures k <= |s|
    ensures k < |s| ==> Opens(s[k])
    ensures forall i :: 0 <= i < k ==> !Opens(s[i])
  {
    if s == "" || Opens(s[0]) then 0 else OpenerAt(s[1..]) + 1
  }

  function Extract(text: string): string {
    var body := Body(text);
    var start := OpenerAt(body);
    if start == |body| then body else body[start..start + Taken(Out(0), body[start..])]
  }

  /** `str.find` for one character. */
  method Find(text: string, c: char) returns (k: int)
    ensures k == -1 ==> c !in text
    ensures k != -1 ==> 0 <= k < |text| && text[k] == c && c !in text[..k]
  {
    for i := 0 to |text|
      invariant c !in text[..i]
    {
      if text[i] == c {
        return i;
      }
    }
    return -1;
  }

  method ExtractJsonObject(text: string) returns (r: string)
    ensures r == Extract(text)
  {
    hide Strip, DropTag, FenceAt, OpenerAt, Taken;
    var t := Strip(text);
    if FENCE <= t {
      var body := DropTag(t[3..]);
      t := Strip(body[..FenceAt(body)]);
    }
    var curly := Find(t, '{');
    var square := Find(t, '[');
    if curly == -1 && square == -1 {
      return t;
    }
    var start := if curly == -1 then square else if square == -1 || curly < square then curly else square;
    StartOpens(t, curly, square);
    r := Balanced(t, start);
  }

  /** An opening bracket with none before it is where the scan starts. */
  lemma FirstOpener(t: string, k: nat)
    requires k < |t| && Opens(t[k]) && '{' !in t[..k] && '[' !in t[..k]
    ensures OpenerAt(t) == k
  {
    assert forall i :: 0 <= i < k ==> t[i] == t[..k][i];
  }

  /** The earlier of the two brackets found. */
  lemma StartOpens(t: string, curly: int, square: int)
    requires curly == -1 ==> '{' !in t
    requires curly != -1 ==> 0 <= curly < |t| && t[curly] == '{' && '{' !in t[..curly]
    requires square == -1 ==> '[' !in t
    requires square != -1 ==> 0 <= square < |t| && t[square] == '[' && '[' !in t[..square]
    requires curly != -1 || square != -1
    ensures OpenerAt(t) == if curly == -1 then square else if square == -1 || curly < square then curly else square
  {
    hide OpenerAt;
    var start := if curly == -1 then square else if square == -1 || curly < square then curly else square;
    assert curly != -1 ==> t[..start] == t[..curly][..start];
    assert square != -1 ==> t[..start] == t[..square][..start];
    FirstOpener(t, start);
  }

  /** The character loop, from an opening bracket on. */
  method Balanced(text: string, start: nat) returns (r: string)
    requires start <= |text|
    ensures r == text[start..start + Taken(Out(0), text[start..])]
  {
    var depth, inStr, esc := 0, false, false;
    for i := start to |text|
      invariant Taken(Out(0), text[start..]) == i - start + Taken(Scan(depth, inStr, esc), text[i..])
    {
      var ch := text[i];
      assert text[i..][1..] == text[i + 1..];
      if inStr {
        if esc {
          esc := false;
        } else if ch == '\\' {
          esc := true;
        } else if ch == '"' {
          inStr := false;
        }
      } else if ch == '"' {
        inStr := true;
      } else if ch == '{' || ch == '[' {
        depth := depth + 1;
      } else if ch == '}' || ch == ']' {
        depth := depth - 1;
        if depth == 0 {
          return text[start..i + 1];
        }
      }
    }
    r := text[start..];
  }

  // ---------------------------------------------------------------- passing over a printed value

  /** The scanner goes from `s` to `t` over all of `a` without ending. */
  predicate Passes(s: Scan, a: string, t: Scan)
    decreases a
  {
    if a == "" then s == t else !Ends(s, a[0]) && Passes(Advance(s, a[0]), a[1..], t)
  }

  lemma {:induction false} PassesJoin(s: Scan, a: string, t: Scan, b: string, u: Scan)
    requires Passes(s, a, t) && Passes(t, b, u)
    ensures Passes(s, a + b, u)
    decreases a
  {
    if a == "" {
      assert a + b == b;
    } else {
      PassesJoin(Advance(s, a[0]), a[1..], t, b, u);
      assert (a + b)[1..] == a[1..] + b;
    }
  }

  lemma {:induction false} TakenPassed(s: Scan, a: string, t: Scan, b: string)
    requires Passes(s, a, t)
    ensures Taken(s, a + b) == |a| + Taken(t, b)
    decreases a
  {
    if a == "" {
      assert a + b == b;
    } else {
      TakenPassed(Advance(s, a[0]), a[1..], t, b);
      assert (a + b)[1..] == a[1..] + b;
    }
  }

  lemma {:induction false} PassesBare(d: int, a: string)
    requires AllBare(a)
    ensures Passes(Out(d), a, Out(d))
  {
    if a == "" {
    } else {
      PassesBare(d, a[1..]);
    }
  }

  lemma PassesBlanks(d: int, a: string)
    requires Blanks(a)
    ensures Passes(Out(d), a, Out(d))
  {
    PassesBare(d, a);
  }

  lemma PassesUnit(d: int, u: Unit)
    requires UnitOk(u)
    ensures Passes(Scan(d, true, false), PrintUnit(u), Scan(d, true, false))
  {
    var s := Scan(d, true, false);
    match u
    case Plain(c) =>
      assert Passes(s, [c][1..], s);
    case Escape(c) =>
      assert Passes(s.(esc := true), [c], s) by {
        assert Passes(s, [c][1..], s);
      }
      assert ['\\', c][1..] == [c];
    case Hex(x) =>
      assert Passes(s, x, s) by {
        assert Passes(s, x[1..][1..][1..], s);
      }
      assert Passes(s.(esc := true), ['u'] + x, s) by {
        assert (['u'] + x)[1..] == x;
      }
      assert (['\\', 'u'] + x)[1..] == ['u'] + x;
  }

  lemma {:induction false} PassesUnits(d: int, us: seq<Unit>)
    requires UnitsOk(us)
    ensures Passes(Scan(d, true, false), PrintUnits(us), Scan(d, true, false))
  {
    if us == [] {
    } else {
      var s := Scan(d, true, false);
      PassesUnit(d, us[0]);
      PassesUnits(d, us[1..]);
      PassesJoin(s, PrintUnit(us[0]), s, PrintUnits(us[1..]), s);
    }
  }

  lemma PassesText(d: int, us: seq<Unit>)
    requires UnitsOk(us)
    ensures Passes(Out(d), PrintText(us), Out(d))
  {
    var s := Scan(d, true, false);
    PassesUnits(d, us);
    PassesOne(s, '"', Out(d));
    PassesJoin(s, PrintUnits(us), s, "\"", Out(d));
    PassesOne(Out(d), '"', s);
    PassesJoin(Out(d), "\"", s, PrintUnits(us) + "\"", Out(d));
  }

  lemma PassesOne(s: Scan, c: char, t: Scan)
    requires !Ends(s, c) && Advance(s, c) == t
    ensures Passes(s, [c], t)
  {
    assert [c][1..] == "";
  }

  /** Inside an open bracket a whole value leaves the depth as it found it. */
  lemma {:induction false} PassesValue(d: int, v: Json)
    requires d >= 1 && Valid(v)
    ensures Passes(Out(d), Print(v), Out(d))
    decreases v, 1
  {
    match v
    case Atom(token) =>
      AtomIsBare(token);
      PassesBare(d, token);
    case Text(us) =>
      PassesText(d, us);
    case Array(items, tail) =>
      PassesInside(d, v);
      PassesOne(Out(d + 1), ']', Out(d));
      PassesJoin(Out(d + 1), Inside(v), Out(d + 1), "]", Out(d));
      PassesOne(Out(d), '[', Out(d + 1));
      PassesJoin(Out(d), "[", Out(d + 1), Inside(v) + "]", Out(d));
      PrintsInside(v);
    case Object(members, tail) =>
      PassesInside(d, v);
      PassesOne(Out(d + 1), '}', Out(d));
      PassesJoin(Out(d + 1), Inside(v), Out(d + 1), "}", Out(d));
      PassesOne(Out(d), '{', Out(d + 1));
      PassesJoin(Out(d), "{", Out(d + 1), Inside(v) + "}", Out(d));
      PrintsInside(v);
  }

  predicate Composite(v: Json) { v.Array? || v.Object? }

  /** What a composite prints between its brackets. */
  function Inside(v: Json): string
    requires Composite(v)
  {
    (if v.Array? then PrintItems(v.items) else PrintMembers(v.members)) + PrintTail(v.tail)
  }

  function Open(v: Json): string { if v.Array? then "[" else "{" }

  function Close(v: Json): string { if v.Array? then "]" else "}" }

  lemma PrintsInside(v: Json)
    requires Composite(v)
    ensures Print(v) == Open(v) + (Inside(v) + Close(v))
  {
    if v.Array? {
      assert PrintItems(v.items) + (PrintTail(v.tail) + "]") == Inside(v) + "]";
    } else {
      assert PrintMembers(v.members) + (PrintTail(v.tail) + "}") == Inside(v) + "}";
    }
  }

  lemma {:induction false} PassesInside(d: int, v: Json)
    requires d >= 0 && Valid(v) && Composite(v)
    ensures Passes(Out(d + 1), Inside(v), Out(d + 1))
    decreases v, 0
  {
    var s := Out(d + 1);
    PassesTail(d + 1, v.tail);
    if v.Array? {
      PassesItems(d + 1, v.items);
      PassesJoin(s, PrintItems(v.items), s, PrintTail(v.tail), s);
    } else {
      PassesMembers(d + 1, v.members);
      PassesJoin(s, PrintMembers(v.members), s, PrintTail(v.tail), s);
    }
  }

  lemma PassesTail(d: int, t: Tail)
    requires Blanks(t.blanks)
    ensures Passes(Out(d), PrintTail(t), Out(d))
  {
    PassesBlanks(d, t.blanks);
    if t.comma {
      PassesOne(Out(d), ',', Out(d));
      PassesJoin(Out(d), ",", Out(d), t.blanks, Out(d));
    } else {
      assert PrintTail(t) == t.blanks;
    }
  }

  lemma {:induction false} PassesItems(d: int, items: Items)
    requires d >= 1 && ValidItems(items)
    ensures Passes(Out(d), PrintItems(items), Out(d))
    decreases items
  {
    match items
    case NoItems =>
    case Item(b, v, a, rest) =>
      var s := Out(d);
      var more := if rest.NoItems? then "" else "," + PrintItems(rest);
      PassesItems(d, rest);
      PassesOne(s, ',', s);
      PassesJoin(s, ",", s, PrintItems(rest), s);
      PassesBlanks(d, a);
      PassesJoin(s, a, s, more, s);
      PassesValue(d, v);
      PassesJoin(s, Print(v), s, a + more, s);
      PassesBlanks(d, b);
      PassesJoin(s, b, s, Print(v) + (a + more), s);
  }

  lemma {:induction false} PassesMembers(d: int, members: Members)
    requires d >= 1 && ValidMembers(members)
    ensures Passes(Out(d), PrintMembers(members), Out(d))
    decreases members
  {
    match members
    case NoMembers =>
    case Member(b, k, c, v, a, rest) =>
      var s := Out(d);
      var more := if rest.NoMembers? then "" else "," + PrintMembers(rest);
      PassesMembers(d, rest);
      PassesOne(s, ',', s);
      PassesJoin(s, ",", s, PrintMembers(rest), s);
      PassesBlanks(d, a);
      PassesJoin(s, a, s, more, s);
      PassesValue(d, v);
      PassesJoin(s, Print(v), s, a + more, s);
      ColonIsBare(c);
      PassesBare(d, c);
      PassesJoin(s, c, s, Print(v) + (a + more), s);
      PassesText(d, k);
      PassesJoin(s, PrintText(k), s, c + (Print(v) + (a + more)), s);
      PassesBlanks(d, b);
      PassesJoin(s, b, s, PrintText(k) + (c + (Print(v) + (a + more))), s);
  }

  /** Started at an opening bracket, the scanner takes exactly the value it opens,
      whatever follows. */
  lemma TakenValue(v: Json, rest: string)
    requires Valid(v) && Composite(v)
    ensures Taken(Out(0), Print(v) + rest) == |Print(v)|
  {
    PrintsInside(v);
    PassesInside(0, v);
    PassesOne(Out(0), Open(v)[0], Out(1));
    TakenBetween(Open(v), Inside(v), Close(v), rest);
  }

  lemma TakenBetween(open: string, inside: string, close: string, rest: string)
    requires Passes(Out(0), open, Out(1)) && Passes(Out(1), inside, Out(1))
    requires |close| == 1 && Shuts(close[0])
    ensures Taken(Out(0), open + (inside + close) + rest) == |open + (inside + close)|
  {
    var more := close + rest;
    assert more[0] == close[0];
    assert Taken(Out(1), more) == 1;
    TakenPassed(Out(1), inside, Out(1), more);
    TakenPassed(Out(0), open, Out(1), inside + more);
    Regroup(open, inside, close, rest);
  }

  lemma Regroup(a: string, b: string, c: string, d: string)
    ensures a + (b + c) + d == a + (b + (c + d))
  {
  }

  // ---------------------------------------------------------------- recovering the value

  lemma {:induction false} LStripBefore(p: string, x: string)
    requires x != "" && !IsSpace(x[0])
    ensures LStrip(p + x) == LStrip(p) + x
  {
    if p == "" {
      assert p + x == x;
    } else {
      var y := p + x;
      assert y[0] == p[0] && y[1..] == p[1..] + x;
      if IsSpace(p[0]) {
        LStripBefore(p[1..], x);
      }
    }
  }

  lemma {:induction false} RStripAfter(x: string, q: string)
    requires x != "" && !IsSpace(x[|x| - 1])
    ensures RStrip(x + q) == x + RStrip(q)
  {
    if q == "" {
      assert x + q == x;
    } else {
      RStripAfter(x, q[..|q| - 1]);
      assert (x + q)[..|x + q| - 1] == x + q[..|q| - 1];
    }
  }

  /** A text that starts with an opening and ends with a closing bracket. */
  predicate Bracketed(x: string) { |x| >= 2 && Opens(x[0]) && Shuts(x[|x| - 1]) }

  lemma StripAround(p: string, x: string, q: string)
    requires Bracketed(x)
    ensures Strip(p + x + q) == LStrip(p) + x + RStrip(q)
  {
    hide LStrip, RStrip;
    assert p + x + q == p + (x + q);
    LStripBefore(p, x + q);
    assert LStrip(p) + (x + q) == LStrip(p) + x + q;
    RStripAfter(LStrip(p) + x, q);
  }

  predicate NoOpener(s: string) { forall i :: 0 <= i < |s| ==> !Opens(s[i]) }

  /** A body whose first bracket opens the value gives back the value. */
  lemma BodyGivesValue(text: string, w: string, v: Json, q: string)
    requires Valid(v) && Composite(v) && NoOpener(w)
    requires Body(text) == w + Print(v) + q
    ensures Extract(text) == Print(v)
  {
    hide Body, Valid, Print, OpenerAt, Taken;
    var x := Print(v);
    var body := w + x + q;
    PrintIsBracketed(v);
    assert body[|w|] == x[0];
    assert body[..|w|] == w;
    FirstOpener(body, |w|);
    assert body[|w|..] == x + q;
    TakenValue(v, q);
    assert body[|w|..|w| + |x|] == x;
  }

  lemma DropTagBefore(u: string, x: string, q: string)
    requires Bracketed(x)
    ensures DropTag(u + (x + q)) == DropTag(u) + (x + q)
  {
    var b := u + (x + q);
    assert forall i :: 0 <= i < |u| ==> b[i] == u[i];
    if |u| < 4 {
      assert b[|u|] == x[0];
      assert DropTag(u) == u;
    } else {
      assert b[4..] == u[4..] + (x + q);
    }
  }

  /** With no fence in the parts there is none across a bracket. */
  lemma FenceAfter(u: string, x: string, q: string)
    requires Bracketed(x) && !HasFence(u) && !HasFence(x)
    ensures FenceAt(u + x + q) >= |u| + |x|
  {
    hide FenceAt;
    var b := u + x + q;
    forall k | 0 <= k < |u| + |x| ensures !(FENCE <= b[k..]) {
      FenceMeans(b, k);
      if k < |u| {
        FenceMeans(u, k);
      } else {
        FenceMeans(x, k - |u|);
      }
    }
  }

  lemma FenceMeans(s: string, k: nat)
    requires k < |s|
    ensures FENCE <= s[k..] <==> k + 3 <= |s| && s[k] == s[k + 1] == s[k + 2] == '`'
    ensures FENCE <= s[k..] ==> HasFence(s)
  {
    if k + 3 <= |s| {
      assert s[k..][..3] == s[k..k + 3] == [s[k], s[k + 1], s[k + 2]];
    }
  }

  /** What the tool returns is a stretch of the body it scans. */
  lemma ExtractWithin(text: string) returns (i: nat, j: nat)
    ensures i <= j <= |Body(text)| && Extract(text) == Body(text)[i..j]
  {
    hide Body, OpenerAt, Taken;
    var body := Body(text);
    i := OpenerAt(body);
    if i == |body| {
      i, j := 0, |body|;
      assert body[..|body|] == body;
    } else {
      j := i + Taken(Out(0), body[i..]);
    }
  }

  /** Whether the fence handling leaves the value alone. */
  predicate FenceSafe(p: string, v: Json) {
    FENCE <= LStrip(p) ==> !HasFence(DropTag(LStrip(p)[3..])) && !HasFence(Print(v))
  }

  /** For every object or array, every prefix without an opening bracket and every suffix:
      the printed value comes back exactly when no fence opens the reply, or one does and
      neither the rest of the prefix nor the value itself contains a second fence. */
  lemma ExtractRecovers(p: string, v: Json, q: string)
    requires Valid(v) && Composite(v) && NoOpener(p)
    ensures Extract(p + Print(v) + q) == Print(v) <==> FenceSafe(p, v)
  {
    hide Print, Valid, LStrip, RStrip, FenceAt, DropTag, Extract;
    PrintIsBracketed(v);
    if !(FENCE <= LStrip(p)) {
      BodyOfBareReply(p, Print(v), q);
      BodyGivesValue(p + Print(v) + q, LStrip(p), v, RStrip(q));
    } else if FenceSafe(p, v) {
      RecoversFenced(p, v, q);
    } else {
      LosesFenced(p, Print(v), q);
    }
  }

  lemma RecoversFenced(p: string, v: Json, q: string)
    requires Valid(v) && Composite(v) && NoOpener(p) && FENCE <= LStrip(p)
    requires !HasFence(DropTag(LStrip(p)[3..])) && !HasFence(Print(v))
    ensures Extract(p + Print(v) + q) == Print(v)
  {
    hide Print, Valid, LStrip, RStrip, FenceAt, DropTag, Strip, Body, Extract;
    var u := DropTag(LStrip(p)[3..]);
    PrintIsBracketed(v);
    TagIsSuffix(LStrip(p)[3..]);
    BodyOfFencedReply(p, Print(v), q);
    var rest := FencedValue(u, Print(v), RStrip(q));
    BodyGivesValue(p + Print(v) + q, LStrip(u), v, rest);
  }

  lemma PrintIsBracketed(v: Json)
    requires Composite(v)
    ensures Bracketed(Print(v))
  {
    PrintsInside(v);
  }

  lemma TagIsSuffix(s: string)
    ensures |DropTag(s)| <= |s| && DropTag(s) == s[|s| - |DropTag(s)|..]
  {
  }

  lemma BodyOfBareReply(p: string, x: string, q: string)
    requires Bracketed(x) && !(FENCE <= LStrip(p))
    ensures Body(p + x + q) == LStrip(p) + x + RStrip(q)
  {
    hide LStrip, RStrip, Strip, FenceAt, DropTag;
    StripAround(p, x, q);
    var w, s := LStrip(p), LStrip(p) + x + RStrip(q);
    if |w| < 3 {
      assert s[|w|] == x[0];
    } else {
      assert s[..3] == w[..3];
    }
  }

  /** The body is the first fenced block, blanks around it dropped. */
  lemma BodyOfFencedReply(p: string, x: string, q: string)
    requires Bracketed(x) && FENCE <= LStrip(p)
    ensures var b := DropTag(LStrip(p)[3..]) + x + RStrip(q);
            Body(p + x + q) == Strip(b[..FenceAt(b)])
  {
    hide LStrip, RStrip, Strip, FenceAt, DropTag;
    StripAround(p, x, q);
    var w, q' := LStrip(p), RStrip(q);
    assert (w + x + q')[3..] == w[3..] + (x + q');
    DropTagBefore(w[3..], x, q');
    assert DropTag(w[3..]) + (x + q') == DropTag(w[3..]) + x + q';
  }

  lemma FencedValue(u: string, x: string, q: string) returns (rest: string)
    requires Bracketed(x) && !HasFence(u) && !HasFence(x)
    ensures var b := u + x + q; Strip(b[..FenceAt(b)]) == LStrip(u) + x + rest
  {
    hide LStrip, RStrip, Strip, FenceAt;
    var b := u + x + q;
    FenceAfter(u, x, q);
    var more := b[|u| + |x|..FenceAt(b)];
    assert b[..FenceAt(b)] == u + x + more;
    StripAround(u, x, more);
    rest := RStrip(more);
  }

  /** A second fence in the prefix or in the value cuts the reply short of the value. */
  lemma LosesFenced(p: string, x: string, q: string)
    requires Bracketed(x) && NoOpener(p) && FENCE <= LStrip(p)
    requires HasFence(DropTag(LStrip(p)[3..])) || HasFence(x)
    ensures Extract(p + x + q) != x
  {
    hide LStrip, RStrip, Strip, FenceAt, DropTag, Body, Extract, OpenerAt;
    var u := DropTag(LStrip(p)[3..]);
    var b := u + x + RStrip(q);
    TagIsSuffix(LStrip(p)[3..]);
    BodyOfFencedReply(p, x, q);
    var i, j := ExtractWithin(p + x + q);
    var m := StripWithin(b[..FenceAt(b)], i, j);
    assert Extract(p + x + q) == b[m..m + (j - i)];
    NotBeforeFence(u, x, RStrip(q), m);
  }

  const FENCED_PREFIX: string := "```json "

  /** The array of the one string of three backquotes. */
  const BACKQUOTES: Json := Array(Item("", Text([Plain('`'), Plain('`'), Plain('`')]), "", NoItems), Tail(false, ""))

  lemma BackquotesPrint()
    ensures Valid(BACKQUOTES) && Print(BACKQUOTES) == "[\"```\"]"
  {
    var us := [Plain('`'), Plain('`'), Plain('`')];
    assert us[1..] == [Plain('`'), Plain('`')] && us[1..][1..] == [Plain('`')] && us[1..][1..][1..] == [];
    assert PrintUnits(us) == "```";
  }

  /** Such a reply: a fenced array whose one string holds a fence is not recovered, whatever follows. */
  lemma FencedStringIsLost(q: string)
    ensures Valid(BACKQUOTES) && Composite(BACKQUOTES) && NoOpener(FENCED_PREFIX) && !FenceSafe(FENCED_PREFIX, BACKQUOTES)
    ensures Extract(FENCED_PREFIX + Print(BACKQUOTES) + q) != Print(BACKQUOTES)
  {
    BackquotesPrint();
    hide Print, Valid, Extract, FenceAt;
    assert LStrip(FENCED_PREFIX) == FENCED_PREFIX;
    assert FENCE <= Print(BACKQUOTES)[2..];
    ExtractRecovers(FENCED_PREFIX, BACKQUOTES, q);
  }

  lemma NotBeforeFence(u: string, x: string, q: string, m: nat)
    requires Bracketed(x) && NoOpener(u) && (HasFence(u) || HasFence(x))
    ensures var b := u + x + q; m + |x| <= FenceAt(b) ==> b[m..m + |x|] != x
  {
    hide FenceAt;
    var b := u + x + q;
    if m + |x| <= FenceAt(b) {
      if HasFence(u) {
        FenceMeans(u, FenceAt(u));
        FenceMeans(b, FenceAt(u));
        assert b[m] == u[m];
        assert b[m..m + |x|][0] != x[0];
      } else {
        var k := FenceAt(x);
        FenceMeans(x, k);
        if b[m..m + |x|] == x {
          assert b[m + k] == x[k] && b[m + k + 1] == x[k + 1] && b[m + k + 2] == x[k + 2];
          FenceMeans(b, m + k);
          assert false;
        }
      }
    }
  }

  lemma StripWithin(h: string, i: nat, j: nat) returns (m: nat)
    requires i <= j <= |Strip(h)|
    ensures m + (j - i) <= |h| && Strip(h)[i..j] == h[m..m + (j - i)]
  {
    m := |h| - |LStrip(h)| + i;
  }
}
