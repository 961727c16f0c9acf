/**
 `_repair_json` and `loads_tolerant`: drop a comma that stands, blanks aside, right
 before a closing bracket, but never inside a string, and parse what is left when the
 reply does not parse as it is.
 */
module JsonRepair {
  import opened JsonText

  /** The next character that is not blank closes an object or array. */
  predicate ClosesNext(s: string) {
    s != "" && if IsBlank(s[0]) then ClosesNext(s[1..]) else Shuts(s[0])
  }

  /** String state after one more character. */
  function InStr(inStr: bool, esc: bool, c: char): bool {
    if inStr then esc || c != '"' else c == '"'
  }

  function Esc(inStr: bool, esc: bool, c: char): bool { inStr && !esc && c == '\\' }

  predicate Drops(inStr: bool, s: string)
    requires s != ""
  {
    !inStr && s[0] == ',' && ClosesNext(s[1..])
  }

  /** The repaired text, from a point inside or outside a string. */
  function Fix(inStr: bool, esc: bool, s: string): string
    decreases s
  {
    if s == "" then ""
    else (if Drops(inStr, s) then "" else s[..1]) + Fix(InStr(inStr, esc, s[0]), Esc(inStr, esc, s[0]), s[1..])
  }

  function Repair(text: string): string { Fix(false, false, text) }

  method RepairJson(text: string) returns (r: string)
    ensures r == Repair(text)
  {
    hide Fix, ClosesNext;
    r := "";
    var inStr, esc := false, false;
    assert text[0..] == text;
    for i := 0 to |text|
      invariant Repair(text) == r + Fix(inStr, esc, text[i..])
      invariant esc ==> inStr
    {
      var ch := text[i];
      FixStep(inStr, esc, text, i, r);
      if inStr {
        r := r + [ch];
        if esc {
          esc := false;
        } else if ch == '\\' {
          esc := true;
        } else if ch == '"' {
          inStr := false;
        }
        continue;
      }
      if ch == '"' {
        inStr := true;
        r := r + [ch];
        continue;
      }
      if ch == ',' {
        var j := i + 1;
        while j < |text| && IsBlank(text[j])
          invariant i < j <= |text|
          invariant ClosesNext(text[i + 1..]) == ClosesNext(text[j..])
        {
          ClosesStep(text, j);
          j := j + 1;
        }
        ClosesStep(text, j);
        if j < |text| && Shuts(text[j]) {
          continue;
        }
      }
      r := r + [ch];
    }
    FixEnd(inStr, esc);
    assert text[|text|..] == "" && r + "" == r;
  }

  lemma FixStep(inStr: bool, esc: bool, text: string, i: nat, r: string)
    requires i < |text|
    ensures r + Fix(inStr, esc, text[i..])
         == r + (if !inStr && text[i] == ',' && ClosesNext(text[i + 1..]) then "" else [text[i]])
              + Fix(InStr(inStr, esc, text[i]), Esc(inStr, esc, text[i]), text[i + 1..])
  {
    assert text[i..][1..] == text[i + 1..] && text[i..][..1] == [text[i]];
    hide ClosesNext, InStr, Esc;
  }

  lemma FixEnd(inStr: bool, esc: bool)
    ensures Fix(inStr, esc, "") == ""
  {
  }

  lemma ClosesStep(text: string, j: nat)
    requires j <= |text|
    ensures ClosesNext(text[j..])
        <==> j < |text| && if IsBlank(text[j]) then ClosesNext(text[j + 1..]) else Shuts(text[j])
  {
    if j < |text| {
      assert text[j..][1..] == text[j + 1..];
    }
  }

  /** From position 1 on nothing but the four blanks of RFC 8259 stands before a closing bracket at `k`. */
  predicate ClosedAt(s: string, k: nat) {
    && 1 <= k < |s| && (s[k] == '}' || s[k] == ']')
    && forall i :: 1 <= i < k ==> s[i] == ' ' || s[i] == '\t' || s[i] == '\n' || s[i] == '\r'
  }

  lemma {:induction false} ClosesNextIff(s: string)
    requires s != ""
    ensures ClosesNext(s[1..]) <==> exists k: nat :: ClosedAt(s, k)
    decreases |s|
  {
    var t := s[1..];
    if t == "" {
    } else if t[0] == ' ' || t[0] == '\t' || t[0] == '\n' || t[0] == '\r' {
      ClosesNextIff(t);
      if k: nat :| ClosedAt(t, k) { assert ClosedAt(s, k + 1); }
      if k: nat :| ClosedAt(s, k) {
        assert k >= 2 && t[k - 1] == s[k];
        assert forall i :: 1 <= i < k - 1 ==> t[i] == s[i + 1];
        assert ClosedAt(t, k - 1);
      }
    } else {
      assert s[1] == t[0];
      if t[0] == '}' || t[0] == ']' { assert ClosedAt(s, 1); }
    }
  }

  /** Which character a repair drops: a comma outside strings with only blanks between it and a closing
      bracket. */
  lemma DropsIff(inStr: bool, s: string)
    requires s != ""
    ensures Drops(inStr, s) <==> !inStr && s[0] == ',' && exists k: nat :: ClosedAt(s, k)
  {
    ClosesNextIff(s);
    hide ClosesNext;
  }

  // ---------------------------------------------------------------- what every repair keeps

  /** A text without any comma outside its string literals. */
  function Skeleton(inStr: bool, esc: bool, s: string): string
    decreases s
  {
    if s == "" then ""
    else (if !inStr && s[0] == ',' then "" else s[..1])
         + Skeleton(InStr(inStr, esc, s[0]), Esc(inStr, esc, s[0]), s[1..])
  }

  /** On every text, well formed or not, the repair touches nothing but commas outside
      string literals: both texts have the same skeleton, character by character. */
  lemma {:induction false} RepairKeepsSkeleton(inStr: bool, esc: bool, s: string)
    ensures Skeleton(inStr, esc, Fix(inStr, esc, s)) == Skeleton(inStr, esc, s)
    decreases s
  {
    if s == "" {
    } else {
      var a, b := InStr(inStr, esc, s[0]), Esc(inStr, esc, s[0]);
      var more := Fix(a, b, s[1..]);
      RepairKeepsSkeleton(a, b, s[1..]);
      if Drops(inStr, s) {
        assert Fix(inStr, esc, s) == more;
      } else {
        assert Fix(inStr, esc, s)[1..] == more && Fix(inStr, esc, s)[0] == s[0];
      }
    }
  }

  /** Some comma outside the string literals stands right before a closing bracket. */
  predicate HasTrailingComma(inStr: bool, esc: bool, s: string)
    decreases s
  {
    s != "" && (Drops(inStr, s)
                || HasTrailingComma(InStr(inStr, esc, s[0]), Esc(inStr, esc, s[0]), s[1..]))
  }

  /** The repair is the identity exactly on the texts without a trailing comma. */
  lemma {:induction false} RepairIdentityIff(inStr: bool, esc: bool, s: string)
    ensures Fix(inStr, esc, s) == s <==> !HasTrailingComma(inStr, esc, s)
    ensures |Fix(inStr, esc, s)| <= |s|
    ensures |Fix(inStr, esc, s)| == |s| ==> Fix(inStr, esc, s) == s
    decreases s
  {
    if s == "" {
    } else {
      var a, b := InStr(inStr, esc, s[0]), Esc(inStr, esc, s[0]);
      RepairIdentityIff(a, b, s[1..]);
      assert s == s[..1] + s[1..];
      if !Drops(inStr, s) && Fix(a, b, s[1..]) != s[1..] {
        assert (s[..1] + Fix(a, b, s[1..]))[1..] == Fix(a, b, s[1..]);
      }
    }
  }

  // ---------------------------------------------------------------- repairing a printed value

  /** The repair of a text that starts outside string literals. */
  function FixOutside(s: string): string { Fix(false, false, s) }

  lemma {:induction false} FixBare(a: string, rest: string)
    requires AllBare(a)
    ensures FixOutside(a + rest) == a + FixOutside(rest)
  {
    if a == "" {
      assert a + rest == rest;
    } else {
      FixBare(a[1..], rest);
      assert (a + rest)[1..] == a[1..] + rest && (a + rest)[..1] == a[..1];
      assert a == a[..1] + a[1..];
      hide Fix;
      assert a[..1] + (a[1..] + FixOutside(rest)) == a[..1] + a[1..] + FixOutside(rest);
    }
  }

  lemma {:induction false} FixQuoted(us: seq<Unit>, rest: string)
    requires UnitsOk(us)
    ensures Fix(true, false, PrintUnits(us) + rest) == PrintUnits(us) + Fix(true, false, rest)
  {
    if us == [] {
      assert PrintUnits(us) + rest == rest;
    } else {
      hide Fix, PrintUnit, UnitOk;
      var u, more := PrintUnit(us[0]), PrintUnits(us[1..]);
      FixQuoted(us[1..], rest);
      FixUnit(us[0], more + rest);
      Regroup(u, more, rest);
      Regroup(u, more, Fix(true, false, rest));
    }
  }

  lemma Regroup(a: string, b: string, c: string)
    ensures a + b + c == a + (b + c)
  {
  }

  lemma FixUnit(u: Unit, rest: string)
    requires UnitOk(u)
    ensures Fix(true, false, PrintUnit(u) + rest) == PrintUnit(u) + Fix(true, false, rest)
  {
    match u
    case Plain(c) =>
      assert ([c] + rest)[1..] == rest;
    case Escape(c) =>
      FixEscape(c, rest);
    case Hex(d) =>
      FixEscape('u', d + rest);
      FixHex(d, rest);
      hide Fix;
      assert ['\\', 'u'] + d + rest == ['\\', 'u'] + (d + rest);
      assert ['\\', 'u'] + d + Fix(true, false, rest) == ['\\', 'u'] + (d + Fix(true, false, rest));
  }

  lemma FixEscape(c: char, rest: string)
    ensures Fix(true, false, ['\\', c] + rest) == ['\\', c] + Fix(true, false, rest)
  {
    hide Fix;
    FixInside(false, '\\', [c] + rest);
    FixInside(true, c, rest);
    assert ['\\', c] + rest == ['\\'] + ([c] + rest);
    assert ['\\', c] + Fix(true, false, rest) == ['\\'] + ([c] + Fix(true, false, rest));
  }

  /** Inside a string a character is kept. */
  lemma FixInside(esc: bool, c: char, rest: string)
    ensures Fix(true, esc, [c] + rest) == [c] + Fix(InStr(true, esc, c), Esc(true, esc, c), rest)
  {
    assert ([c] + rest)[1..] == rest;
  }

  lemma {:induction false} FixHex(d: string, rest: string)
    requires forall i :: 0 <= i < |d| ==> IsHex(d[i])
    ensures Fix(true, false, d + rest) == d + Fix(true, false, rest)
  {
    if d == "" {
      assert d + rest == rest;
    } else {
      FixHex(d[1..], rest);
      assert (d + rest)[1..] == d[1..] + rest;
      assert d == d[..1] + d[1..];
    }
  }

  lemma FixText(us: seq<Unit>, rest: string)
    requires UnitsOk(us)
    ensures FixOutside(PrintText(us) + rest) == PrintText(us) + FixOutside(rest)
  {
    var body := PrintUnits(us);
    FixQuote(false, rest);
    FixQuote(true, body + ("\"" + rest));
    hide Fix, PrintUnits, UnitsOk;
    FixQuoted(us, "\"" + rest);
    Regroup("\"", body + "\"", rest);
    Regroup(body, "\"", rest);
    Regroup("\"", body + "\"", FixOutside(rest));
    Regroup(body, "\"", FixOutside(rest));
  }

  /** A quotation mark starts a string outside one, and ends it inside. */
  lemma FixQuote(opening: bool, rest: string)
    ensures Fix(!opening, false, "\"" + rest) == "\"" + Fix(opening, false, rest)
  {
    assert ("\"" + rest)[1..] == rest && ("\"" + rest)[..1] == "\"";
  }

  lemma {:induction false} ClosesNextAfter(b: string, rest: string)
    requires Blanks(b)
    ensures ClosesNext(b + rest) == ClosesNext(rest)
  {
    if b == "" {
      assert b + rest == rest;
    } else {
      ClosesNextAfter(b[1..], rest);
      assert (b + rest)[1..] == b[1..] + rest;
    }
  }

  /** A value starts with a character that is neither blank nor a closing bracket. */
  lemma ValueStart(v: Json, rest: string)
    requires Valid(v)
    ensures !ClosesNext(Print(v) + rest)
  {
    var x := Print(v);
    assert x != "" && !IsBlank(x[0]) && !Shuts(x[0]) by {
      if v.Atom? {
        AtomIsBare(v.token);
      }
    }
    assert (x + rest)[0] == x[0];
  }

  lemma FixComma(rest: string)
    ensures FixOutside("," + rest) == (if ClosesNext(rest) then "" else ",") + FixOutside(rest)
  {
    assert ("," + rest)[1..] == rest;
  }

  lemma FixTail(t: Tail, close: char, rest: string)
    requires Blanks(t.blanks) && Shuts(close)
    ensures FixOutside(PrintTail(t) + ([close] + rest)) == t.blanks + ([close] + FixOutside(rest))
  {
    var more := [close] + rest;
    assert more[1..] == rest && FixOutside(more) == [close] + FixOutside(rest);
    FixBare(t.blanks, more);
    if t.comma {
      FixComma(t.blanks + more);
      ClosesNextAfter(t.blanks, more);
      assert "," + t.blanks + more == "," + (t.blanks + more);
    } else {
      assert PrintTail(t) == t.blanks;
    }
  }

  /** Repairing a printed value, whatever follows it, prints the same tree without its
      stray commas. */
  lemma {:induction false} FixValue(v: Json, rest: string)
    requires Valid(v)
    ensures FixOutside(Print(v) + rest) == Print(Clean(v)) + FixOutside(rest)
    decreases v
  {
    match v
    case Atom(token) =>
      AtomIsBare(token);
      FixBare(token, rest);
    case Text(us) =>
      FixText(us, rest);
    case Array(items, tail) =>
      FixItems(items, PrintTail(tail) + ("]" + rest));
      FixTail(tail, ']', rest);
      FixOpen('[', PrintItems(items) + (PrintTail(tail) + ("]" + rest)));
      var a, b := PrintItems(items), PrintItems(CleanItems(items));
      PrintCleanTail(tail);
      Regroup3("[", a, PrintTail(tail), "]", rest);
      Regroup3("[", b, tail.blanks, "]", FixOutside(rest));
    case Object(members, tail) =>
      FixMembers(members, PrintTail(tail) + ("}" + rest));
      FixTail(tail, '}', rest);
      FixOpen('{', PrintMembers(members) + (PrintTail(tail) + ("}" + rest)));
      var a, b := PrintMembers(members), PrintMembers(CleanMembers(members));
      PrintCleanTail(tail);
      Regroup3("{", a, PrintTail(tail), "}", rest);
      Regroup3("{", b, tail.blanks, "}", FixOutside(rest));
  }

  lemma PrintCleanTail(t: Tail)
    ensures PrintTail(Tail(false, t.blanks)) == t.blanks
  {
  }

  lemma FixOpen(c: char, rest: string)
    requires c == '[' || c == '{'
    ensures FixOutside([c] + rest) == [c] + FixOutside(rest)
  {
    assert ([c] + rest)[1..] == rest;
  }

  lemma Regroup3(a: string, b: string, c: string, d: string, e: string)
    ensures a + (b + (c + d)) + e == a + (b + (c + (d + e)))
  {
  }

  lemma {:induction false} FixItems(items: Items, rest: string)
    requires ValidItems(items)
    ensures FixOutside(PrintItems(items) + rest) == PrintItems(CleanItems(items)) + FixOutside(rest)
    decreases items
  {
    match items
    case NoItems =>
      assert "" + rest == rest && "" + FixOutside(rest) == FixOutside(rest);
    case Item(b, v, a, others) =>
      var more := if others.NoItems? then "" else "," + PrintItems(others);
      var more' := if others.NoItems? then "" else "," + PrintItems(CleanItems(others));
      FixItems(others, rest);
      assert FixOutside(more + rest) == more' + FixOutside(rest) by {
        if others.Item? {
          ItemsStart(others, rest);
          FixSeparator(PrintItems(others), PrintItems(CleanItems(others)), rest);
        }
      }
      FixSpaced(a, more + rest);
      FixValue(v, a + (more + rest));
      FixSpaced(b, Print(v) + (a + (more + rest)));
      Regroup3(b, Print(v), a, more, rest);
      Regroup3(b, Print(Clean(v)), a, more', FixOutside(rest));
  }

  lemma FixSpaced(b: string, rest: string)
    requires Blanks(b)
    ensures FixOutside(b + rest) == b + FixOutside(rest)
  {
    FixBare(b, rest);
  }

  lemma {:induction false} FixMembers(members: Members, rest: string)
    requires ValidMembers(members)
    ensures FixOutside(PrintMembers(members) + rest) == PrintMembers(CleanMembers(members)) + FixOutside(rest)
    decreases members
  {
    match members
    case NoMembers =>
      assert "" + rest == rest && "" + FixOutside(rest) == FixOutside(rest);
    case Member(b, k, c, v, a, others) =>
      var more := if others.NoMembers? then "" else "," + PrintMembers(others);
      var more' := if others.NoMembers? then "" else "," + PrintMembers(CleanMembers(others));
      FixMembers(others, rest);
      assert FixOutside(more + rest) == more' + FixOutside(rest) by {
        if others.Member? {
          MembersStart(others, rest);
          FixSeparator(PrintMembers(others), PrintMembers(CleanMembers(others)), rest);
        }
      }
      FixSpaced(a, more + rest);
      FixValue(v, a + (more + rest));
      ColonIsBare(c);
      FixBare(c, Print(v) + (a + (more + rest)));
      FixText(k, c + (Print(v) + (a + (more + rest))));
      FixSpaced(b, PrintText(k) + (c + (Print(v) + (a + (more + rest)))));
      Regroup5(b, PrintText(k), c, Print(v), a, more, rest);
      Regroup5(b, PrintText(k), c, Print(Clean(v)), a, more', FixOutside(rest));
  }

  lemma Regroup5(a: string, b: string, c: string, d: string, e: string, f: string, g: string)
    ensures a + (b + (c + (d + (e + f)))) + g == a + (b + (c + (d + (e + (f + g)))))
  {
    Regroup3(c, d, e, f, g);
    Regroup3(a, b, "", c + (d + (e + f)), g);
    assert "" + (c + (d + (e + f))) == c + (d + (e + f));
    assert "" + (c + (d + (e + f)) + g) == c + (d + (e + f)) + g;
  }

  /** A comma before something that does not close is kept. */
  lemma FixSeparator(x: string, y: string, rest: string)
    requires !ClosesNext(x + rest) && FixOutside(x + rest) == y + FixOutside(rest)
    ensures FixOutside("," + x + rest) == "," + y + FixOutside(rest)
  {
    FixComma(x + rest);
    hide FixOutside;
    assert "," + x + rest == "," + (x + rest);
    assert "," + y + FixOutside(rest) == "," + (y + FixOutside(rest));
  }

  lemma ItemsStart(items: Items, rest: string)
    requires ValidItems(items) && items.Item?
    ensures !ClosesNext(PrintItems(items) + rest)
  {
    var Item(b, v, a, others) := items;
    var more := a + (if others.NoItems? then "" else "," + PrintItems(others));
    ValueStart(v, more + rest);
    hide ClosesNext;
    ClosesNextAfter(b, Print(v) + (more + rest));
    assert PrintItems(items) == b + (Print(v) + more);
    Regroup(b, Print(v) + more, rest);
    Regroup(Print(v), more, rest);
  }

  lemma MembersStart(members: Members, rest: string)
    requires ValidMembers(members) && members.Member?
    ensures !ClosesNext(PrintMembers(members) + rest)
  {
    var Member(b, k, c, v, a, others) := members;
    var more := c + (Print(v) + (a + (if others.NoMembers? then "" else "," + PrintMembers(others))));
    ValueStart(Text(k), more + rest);
    hide ClosesNext;
    ClosesNextAfter(b, PrintText(k) + (more + rest));
    assert PrintMembers(members) == b + (PrintText(k) + more);
    Regroup(b, PrintText(k) + more, rest);
    Regroup(PrintText(k), more, rest);
  }

  // ---------------------------------------------------------------- main results

  /** A reply: one value with blanks around it. */
  datatype Doc = Doc(before: string, value: Json, after: string)

  predicate ValidDoc(d: Doc) { Blanks(d.before) && Valid(d.value) && Blanks(d.after) }

  function PrintDoc(d: Doc): string { d.before + Print(d.value) + d.after }

  function CleanDoc(d: Doc): Doc { d.(value := Clean(d.value)) }

  /** No stray comma anywhere in the tree. */
  predicate Strict(d: Doc) { CleanDoc(d) == d }

  /** Every reply that prints a value, with or without stray commas at any depth, is
      repaired to the same text without them; strict JSON is returned as it is. */
  lemma RepairPrinted(d: Doc)
    requires ValidDoc(d)
    ensures Repair(PrintDoc(d)) == PrintDoc(CleanDoc(d))
    ensures Strict(d) ==> Repair(PrintDoc(d)) == PrintDoc(d)
  {
    assert FixOutside("") == "";
    hide FixOutside, Clean, Print;
    FixSpaced(d.after, "");
    FixValue(d.value, d.after);
    FixSpaced(d.before, Print(d.value) + d.after);
    assert d.after + "" == d.after;
    assert PrintDoc(d) == d.before + (Print(d.value) + d.after);
    assert PrintDoc(CleanDoc(d)) == d.before + (Print(Clean(d.value)) + d.after);
  }

  lemma {:induction false} CleanKeepsMeaning(v: Json)
    requires Valid(v)
    ensures Valid(Clean(v)) && Clean(Clean(v)) == Clean(v) && Meaning(Clean(v)) == Meaning(v)
    decreases v
  {
    match v
    case Atom(_) =>
    case Text(_) =>
    case Array(items, _) => CleanItemsKeepMeaning(items);
    case Object(members, _) => CleanMembersKeepMeaning(members);
  }

  lemma {:induction false} CleanItemsKeepMeaning(items: Items)
    requires ValidItems(items)
    ensures var c := CleanItems(items);
            ValidItems(c) && CleanItems(c) == c && Elements(c) == Elements(items)
    decreases items
  {
    if items.NoItems? {
    } else {
      CleanKeepsMeaning(items.value);
      CleanItemsKeepMeaning(items.rest);
    }
  }

  lemma {:induction false} CleanMembersKeepMeaning(members: Members)
    requires ValidMembers(members)
    ensures var c := CleanMembers(members);
            ValidMembers(c) && CleanMembers(c) == c && Pairs(c) == Pairs(members)
    decreases members
  {
    if members.NoMembers? {
    } else {
      CleanKeepsMeaning(members.value);
      CleanMembersKeepMeaning(members.rest);
    }
  }

  datatype Parsed = Parsed(value: Value) | DecodeError

  /** A strict decoder: it reads every strict text as its value and nothing else. */
  ghost predicate IsStrictDecoder(loads: string -> Parsed) {
    && (forall d :: ValidDoc(d) && Strict(d) ==> loads(PrintDoc(d)) == Parsed(Meaning(d.value)))
    && (forall t :: loads(t).Parsed? ==> exists d :: ValidDoc(d) && Strict(d) && PrintDoc(d) == t)
  }

  method LoadsTolerant(loads: string -> Parsed, text: string) returns (r: Parsed)
    ensures r == Tolerant(loads, text)
  {
    r := loads(text);
    if r.DecodeError? {
      var repaired := RepairJson(text);
      r := loads(repaired);
    }
  }

  function Tolerant(loads: string -> Parsed, text: string): Parsed {
    if loads(text).Parsed? then loads(text) else loads(Repair(text))
  }

  /** A text that decodes is taken as it is, and only one that does not is repaired, once. */
  lemma RepairsOnlyOnFailure(loads: string -> Parsed, text: string)
    ensures loads(text) != DecodeError ==> Tolerant(loads, text) == loads(text)
    ensures loads(text) == DecodeError ==> Tolerant(loads, text) == loads(Repair(text))
  {
  }

  /** Value preservation: with any strict decoder, a printed value comes back as the value
      it means, however many stray commas the text carries. */
  lemma TolerantReadsValue(loads: string -> Parsed, d: Doc)
    requires IsStrictDecoder(loads) && ValidDoc(d)
    ensures Tolerant(loads, PrintDoc(d)) == Parsed(Meaning(d.value))
  {
    CleanKeepsMeaning(d.value);
    RepairPrinted(d);
    var t := PrintDoc(d);
    if loads(t).Parsed? {
      var e :| ValidDoc(e) && Strict(e) && PrintDoc(e) == t;
      RepairPrinted(e);
    }
    assert loads(PrintDoc(CleanDoc(d))) == Parsed(Meaning(d.value));
  }

  /** Nothing is invented: a text that is read at all is, after the repair, strict JSON
      for the value it is read as, and differs from it only in commas outside strings. */
  lemma TolerantInventsNothing(loads: string -> Parsed, text: string)
    requires IsStrictDecoder(loads) && Tolerant(loads, text).Parsed?
    ensures exists d :: ValidDoc(d) && Strict(d) && PrintDoc(d) == Repair(text)
                        && Tolerant(loads, text) == Parsed(Meaning(d.value))
                        && Skeleton(false, false, PrintDoc(d)) == Skeleton(false, false, text)
  {
    RepairKeepsSkeleton(false, false, text);
    var t := if loads(text).Parsed? then text else Repair(text);
    var d :| ValidDoc(d) && Strict(d) && PrintDoc(d) == t;
    RepairPrinted(d);
  }
}
