/**
 A JSON text stands for one value only.  Two strict texts with the same characters have the
 same meaning, however their blanks are shared out in the syntax tree, so a strict decoder
 exists and there is only one.
 */
module JsonUnique {
  import opened JsonText
  import opened JsonRepair

  /** What may follow a value: nothing, a blank, a comma or a closing bracket. */
  predicate Delimits(s: string) { s == "" || IsBlank(s[0]) || s[0] == ',' || Shuts(s[0]) }

  predicate Starts(s: string) { s != "" && !IsBlank(s[0]) }

  lemma SameHead(c: char, s: string, d: char, t: string)
    requires [c] + s == [d] + t
    ensures c == d && s == t
  {
    assert ([c] + s)[0] == c && ([c] + s)[1..] == s;
    assert ([d] + t)[0] == d && ([d] + t)[1..] == t;
  }

  lemma SamePrefix(a: string, s: string, b: string, t: string)
    requires a + s == b + t && |a| == |b|
    ensures a == b && s == t
  {
    assert (a + s)[..|a|] == a && (a + s)[|a|..] == s;
    assert (b + t)[..|b|] == b && (b + t)[|b|..] == t;
  }

  /** Where the shorter of two prefixes ends. */
  lemma AtEnd(a: string, s: string, b: string, t: string)
    requires |a| < |b| && a + s == b + t
    ensures s != "" && s[0] == b[|a|]
  {
    assert |a + s| == |a| + |s| && |b + t| == |b| + |t|;
    assert (a + s)[|a|] == s[0] && (b + t)[|a|] == b[|a|];
  }

  /** Leading blanks end where the first other character stands. */
  lemma BlanksUnique(a: string, s: string, b: string, t: string)
    requires Blanks(a) && Blanks(b) && Starts(s) && Starts(t)
    requires a + s == b + t
    ensures a == b && s == t
  {
    if |a| < |b| {
      AtEnd(a, s, b, t);
      assert false;
    } else if |b| < |a| {
      AtEnd(b, t, a, s);
      assert false;
    }
    SamePrefix(a, s, b, t);
  }

  lemma TokenUnique(a: string, s: string, b: string, t: string)
    requires AllSolid(a) && AllSolid(b) && Delimits(s) && Delimits(t)
    requires a + s == b + t
    ensures a == b && s == t
  {
    if |a| < |b| {
      AtEnd(a, s, b, t);
      assert false;
    } else if |b| < |a| {
      AtEnd(b, t, a, s);
      assert false;
    }
    SamePrefix(a, s, b, t);
  }

  // ---------------------------------------------------------------- string literals

  lemma UnitStart(u: Unit, s: string)
    requires UnitOk(u)
    ensures PrintUnit(u) + s != "" && (PrintUnit(u) + s)[0] != '"'
    ensures u.Plain? <==> (PrintUnit(u) + s)[0] != '\\'
    ensures !u.Plain? ==> |PrintUnit(u)| >= 2 && (PrintUnit(u) + s)[1] == PrintUnit(u)[1]
    ensures u.Hex? <==> !u.Plain? && PrintUnit(u)[1] == 'u'
  {
  }

  lemma UnitUnique(u: Unit, s: string, v: Unit, t: string)
    requires UnitOk(u) && UnitOk(v) && PrintUnit(u) + s == PrintUnit(v) + t
    ensures u == v && s == t
  {
    UnitStart(u, s);
    UnitStart(v, t);
    assert u.Plain? == v.Plain? && u.Hex? == v.Hex?;
    SamePrefix(PrintUnit(u), s, PrintUnit(v), t);
    match u
    case Plain(c) => assert [c][0] == [v.c][0];
    case Escape(c) => assert ['\\', c][1] == ['\\', v.c][1];
    case Hex(d) => SamePrefix(['\\', 'u'], d, ['\\', 'u'], v.digits);
  }

  lemma Three(a: string, b: string, c: string)
    ensures a + b + c == a + (b + c)
  {
  }

  lemma {:induction false} UnitsUnique(us: seq<Unit>, s: string, vs: seq<Unit>, t: string)
    requires UnitsOk(us) && UnitsOk(vs)
    requires PrintUnits(us) + ("\"" + s) == PrintUnits(vs) + ("\"" + t)
    ensures us == vs && s == t
    decreases |us|
  {
    hide UnitOk, PrintUnit;
    if us == [] || vs == [] {
      assert "" + ("\"" + s) == "\"" + s && "" + ("\"" + t) == "\"" + t;
      assert ("\"" + s)[0] == ("\"" + t)[0] == '"';
      if us != [] {
        UnitStart(us[0], PrintUnits(us[1..]) + ("\"" + s));
        Three(PrintUnit(us[0]), PrintUnits(us[1..]), "\"" + s);
        assert false;
      } else if vs != [] {
        UnitStart(vs[0], PrintUnits(vs[1..]) + ("\"" + t));
        Three(PrintUnit(vs[0]), PrintUnits(vs[1..]), "\"" + t);
        assert false;
      } else {
        SameHead('"', s, '"', t);
      }
    } else {
      Three(PrintUnit(us[0]), PrintUnits(us[1..]), "\"" + s);
      Three(PrintUnit(vs[0]), PrintUnits(vs[1..]), "\"" + t);
      UnitUnique(us[0], PrintUnits(us[1..]) + ("\"" + s), vs[0], PrintUnits(vs[1..]) + ("\"" + t));
      UnitsUnique(us[1..], s, vs[1..], t);
      assert us == [us[0]] + us[1..] && vs == [vs[0]] + vs[1..];
    }
  }

  lemma TextUnique(us: seq<Unit>, s: string, vs: seq<Unit>, t: string)
    requires UnitsOk(us) && UnitsOk(vs) && PrintText(us) + s == PrintText(vs) + t
    ensures us == vs && s == t
  {
    hide PrintUnits;
    Unquote(us, s);
    Unquote(vs, t);
    SameHead('"', PrintUnits(us) + ("\"" + s), '"', PrintUnits(vs) + ("\"" + t));
    UnitsUnique(us, s, vs, t);
  }

  lemma Unquote(us: seq<Unit>, s: string)
    ensures PrintText(us) + s == ['"'] + (PrintUnits(us) + ("\"" + s))
  {
    hide PrintUnits;
    assert PrintText(us) == ['"'] + (PrintUnits(us) + "\"");
    Three(['"'], PrintUnits(us) + "\"", s);
    Three(PrintUnits(us), "\"", s);
  }

  // ---------------------------------------------------------------- values

  /** What a value starts with tells its kind. */
  lemma StartOf(v: Json, s: string)
    requires Valid(v)
    ensures var x := Print(v) + s;
      && Starts(x) && !Shuts(x[0]) && x[0] != ','
      && (v.Text? <==> x[0] == '"') && (v.Array? <==> x[0] == '[') && (v.Object? <==> x[0] == '{')
  {
    if v.Atom? {
      AtomIsSolid(v.token);
      hide AtomOk;
      assert Solid(v.token[0]) && (v.token + s)[0] == v.token[0];
    } else {
      hide PrintUnits, PrintItems, PrintMembers;
      assert (Print(v) + s)[0] == Print(v)[0];
    }
  }

  /** No stray commas. */
  predicate Neat(v: Json) { Valid(v) && Clean(v) == v }

  predicate NeatItems(items: Items) { ValidItems(items) && CleanItems(items) == items }

  predicate NeatMembers(members: Members) { ValidMembers(members) && CleanMembers(members) == members }

  /** The text from a list of items to the end. */
  function ItemsTo(items: Items, blanks: string, s: string): string { PrintItems(items) + (blanks + ("]" + s)) }

  function MembersTo(members: Members, blanks: string, s: string): string {
    PrintMembers(members) + (blanks + ("}" + s))
  }

  /** The text after the value of an item. */
  function AfterItem(after: string, rest: Items, blanks: string, s: string): string {
    if rest.NoItems? then (after + blanks) + ("]" + s) else after + ("," + ItemsTo(rest, blanks, s))
  }

  function AfterMember(after: string, rest: Members, blanks: string, s: string): string {
    if rest.NoMembers? then (after + blanks) + ("}" + s) else after + ("," + MembersTo(rest, blanks, s))
  }

  lemma ArrayText(v: Json, s: string)
    requires v.Array? && !v.tail.comma
    ensures Print(v) + s == ['['] + ItemsTo(v.items, v.tail.blanks, s)
  {
    hide PrintItems;
    var p, b := PrintItems(v.items), v.tail.blanks;
    assert PrintTail(v.tail) == b;
    assert Print(v) == ['['] + (p + (b + "]"));
    Three(['['], p + (b + "]"), s);
    Three(p, b + "]", s);
    Three(b, "]", s);
  }

  lemma ObjectText(v: Json, s: string)
    requires v.Object? && !v.tail.comma
    ensures Print(v) + s == ['{'] + MembersTo(v.members, v.tail.blanks, s)
  {
    hide PrintMembers;
    var p, b := PrintMembers(v.members), v.tail.blanks;
    assert PrintTail(v.tail) == b;
    assert Print(v) == ['{'] + (p + (b + "}"));
    Three(['{'], p + (b + "}"), s);
    Three(p, b + "}", s);
    Three(b, "}", s);
  }

  lemma ItemText(items: Items, blanks: string, s: string)
    requires items.Item?
    ensures ItemsTo(items, blanks, s) == items.before + (Print(items.value) + AfterItem(items.after, items.rest, blanks, s))
  {
    hide Print;
    var Item(b, v, a, rest) := items;
    var end := blanks + ("]" + s);
    if rest.NoItems? {
      assert a + "" == a;
      assert PrintItems(items) == b + (Print(v) + a);
      Three(b, Print(v) + a, end);
      Three(Print(v), a, end);
      Three(a, blanks, "]" + s);
    } else {
      hide PrintItems;
      var more := PrintItems(rest);
      assert PrintItems(items) == b + (Print(v) + (a + ("," + more))) by { ItemPrints(items); }
      Three(b, Print(v) + (a + ("," + more)), end);
      Three(Print(v), a + ("," + more), end);
      Three(a, "," + more, end);
      Three(",", more, end);
    }
  }

  lemma ItemPrints(items: Items)
    requires items.Item? && items.rest.Item?
    ensures PrintItems(items) == items.before + (Print(items.value) + (items.after + ("," + PrintItems(items.rest))))
  {
    hide Print;
  }

  lemma MemberText(members: Members, blanks: string, s: string)
    requires members.Member?
    ensures MembersTo(members, blanks, s) == members.before + (PrintText(members.key) + (members.colon
      + (Print(members.value) + AfterMember(members.after, members.rest, blanks, s))))
  {
    hide Print, PrintText;
    var Member(b, k, c, v, a, rest) := members;
    var end := blanks + ("}" + s);
    if rest.NoMembers? {
      assert a + "" == a;
      var more := Print(v) + a;
      assert PrintMembers(members) == b + (PrintText(k) + (c + more));
      Four(b, PrintText(k), c, more, end);
      Three(Print(v), a, end);
      Three(a, blanks, "}" + s);
    } else {
      MemberPrints(members);
      hide PrintMembers;
      var tail := "," + PrintMembers(rest);
      var more := Print(v) + (a + tail);
      Four(b, PrintText(k), c, more, end);
      Three(Print(v), a + tail, end);
      Three(a, tail, end);
      Three(",", PrintMembers(rest), end);
    }
  }

  lemma Four(a: string, b: string, c: string, d: string, e: string)
    ensures (a + (b + (c + d))) + e == a + (b + (c + (d + e)))
  {
    Three(a, b + (c + d), e);
    Three(b, c + d, e);
    Three(c, d, e);
  }

  lemma MemberPrints(members: Members)
    requires members.Member? && members.rest.Member?
    ensures PrintMembers(members) == members.before + (PrintText(members.key) + (members.colon
      + (Print(members.value) + (members.after + ("," + PrintMembers(members.rest))))))
  {
    hide Print, PrintText;
  }

  lemma BlanksThen(a: string, s: string)
    requires Blanks(a) && s != "" && Delimits(s)
    ensures Delimits(a + s)
  {
    if a != "" { assert (a + s)[0] == a[0]; } else { assert a + s == s; }
  }

  lemma JoinBlanks(a: string, b: string)
    requires Blanks(a) && Blanks(b)
    ensures Blanks(a + b)
  {
  }

  lemma AfterItemDelimits(after: string, rest: Items, blanks: string, s: string)
    requires Blanks(after) && Blanks(blanks)
    ensures Delimits(AfterItem(after, rest, blanks, s))
  {
    hide PrintItems;
    JoinBlanks(after, blanks);
    BlanksThen(after + blanks, "]" + s);
    BlanksThen(after, "," + ItemsTo(rest, blanks, s));
  }

  lemma AfterMemberDelimits(after: string, rest: Members, blanks: string, s: string)
    requires Blanks(after) && Blanks(blanks)
    ensures Delimits(AfterMember(after, rest, blanks, s))
  {
    hide PrintMembers;
    JoinBlanks(after, blanks);
    BlanksThen(after + blanks, "}" + s);
    BlanksThen(after, "," + MembersTo(rest, blanks, s));
  }

  /** Text that starts the same and is delimited after it holds the same value. */
  lemma {:induction false} ValueUnique(v: Json, s: string, w: Json, t: string)
    requires Neat(v) && Neat(w) && Delimits(s) && Delimits(t)
    requires Print(v) + s == Print(w) + t
    ensures Meaning(v) == Meaning(w) && s == t
    decreases v, 1
  {
    StartOf(v, s);
    StartOf(w, t);
    match v
    case Atom(token) =>
      AtomIsSolid(token);
      AtomIsSolid(w.token);
      TokenUnique(token, s, w.token, t);
    case Text(us) =>
      TextUnique(us, s, w.units, t);
    case Array(items, tail) =>
      ArrayText(v, s);
      ArrayText(w, t);
      SameHead('[', ItemsTo(items, tail.blanks, s), '[', ItemsTo(w.items, w.tail.blanks, t));
      ItemsUnique(items, tail.blanks, s, w.items, w.tail.blanks, t);
    case Object(members, tail) =>
      ObjectText(v, s);
      ObjectText(w, t);
      SameHead('{', MembersTo(members, tail.blanks, s), '{', MembersTo(w.members, w.tail.blanks, t));
      MembersUnique(members, tail.blanks, s, w.members, w.tail.blanks, t);
  }

  lemma NoItemText(blanks: string, s: string)
    ensures ItemsTo(NoItems, blanks, s) == blanks + ("]" + s) && Starts("]" + s) && ("]" + s)[0] == ']'
  {
    assert "" + (blanks + ("]" + s)) == blanks + ("]" + s);
  }

  lemma NoMemberText(blanks: string, s: string)
    ensures MembersTo(NoMembers, blanks, s) == blanks + ("}" + s) && Starts("}" + s) && ("}" + s)[0] == '}'
  {
    assert "" + (blanks + ("}" + s)) == blanks + ("}" + s);
  }

  /** An empty list is not a list with an item. */
  lemma EmptyOrNot(blanks: string, s: string, items: Items, blanks': string, t: string)
    requires Blanks(blanks) && NeatItems(items) && items.Item?
    ensures ItemsTo(NoItems, blanks, s) != ItemsTo(items, blanks', t)
  {
    hide Print, PrintItems, Meaning, Clean, Valid;
    NoItemText(blanks, s);
    ItemText(items, blanks', t);
    var x := Print(items.value) + AfterItem(items.after, items.rest, blanks', t);
    StartOf(items.value, AfterItem(items.after, items.rest, blanks', t));
    hide ItemsTo, AfterItem;
    if ItemsTo(NoItems, blanks, s) == ItemsTo(items, blanks', t) {
      BlanksUnique(blanks, "]" + s, items.before, x);
      assert false;
    }
  }

  lemma EmptyOrMember(blanks: string, s: string, members: Members, blanks': string, t: string)
    requires Blanks(blanks) && NeatMembers(members) && members.Member?
    ensures MembersTo(NoMembers, blanks, s) != MembersTo(members, blanks', t)
  {
    hide Print, PrintMembers, PrintText, Meaning, Clean, Valid;
    NoMemberText(blanks, s);
    MemberText(members, blanks', t);
    var more := members.colon + (Print(members.value) + AfterMember(members.after, members.rest, blanks', t));
    var x := PrintText(members.key) + more;
    KeyStarts(members.key, more);
    hide MembersTo, AfterMember;
    if MembersTo(NoMembers, blanks, s) == MembersTo(members, blanks', t) {
      BlanksUnique(blanks, "}" + s, members.before, x);
      assert false;
    }
  }

  lemma KeyStarts(us: seq<Unit>, s: string)
    ensures Starts(PrintText(us) + s) && (PrintText(us) + s)[0] == '"'
  {
    Unquote(us, s);
  }

  /** What follows a value inside a list: the end, or a comma and the rest. */
  lemma AfterItemUnique(a: string, rest: Items, x: string, s: string, b: string, other: Items, y: string, t: string)
    requires Blanks(a) && Blanks(x) && Blanks(b) && Blanks(y)
    requires AfterItem(a, rest, x, s) == AfterItem(b, other, y, t)
    ensures rest.Item? <==> other.Item?
    ensures rest.NoItems? ==> s == t
    ensures rest.Item? ==> ItemsTo(rest, x, s) == ItemsTo(other, y, t)
  {
    hide ItemsTo;
    JoinBlanks(a, x);
    JoinBlanks(b, y);
    var left := if rest.NoItems? then "]" + s else "," + ItemsTo(rest, x, s);
    var right := if other.NoItems? then "]" + t else "," + ItemsTo(other, y, t);
    BlanksUnique(if rest.NoItems? then a + x else a, left, if other.NoItems? then b + y else b, right);
    assert left[0] == right[0];
    assert left[1..] == right[1..];
  }

  lemma AfterMemberUnique(a: string, rest: Members, x: string, s: string, b: string, other: Members, y: string, t: string)
    requires Blanks(a) && Blanks(x) && Blanks(b) && Blanks(y)
    requires AfterMember(a, rest, x, s) == AfterMember(b, other, y, t)
    ensures rest.Member? <==> other.Member?
    ensures rest.NoMembers? ==> s == t
    ensures rest.Member? ==> MembersTo(rest, x, s) == MembersTo(other, y, t)
  {
    hide MembersTo;
    JoinBlanks(a, x);
    JoinBlanks(b, y);
    var left := if rest.NoMembers? then "}" + s else "," + MembersTo(rest, x, s);
    var right := if other.NoMembers? then "}" + t else "," + MembersTo(other, y, t);
    BlanksUnique(if rest.NoMembers? then a + x else a, left, if other.NoMembers? then b + y else b, right);
    assert left[0] == right[0];
    assert left[1..] == right[1..];
  }

  lemma {:induction false} ItemsUnique(items: Items, x: string, s: string, others: Items, y: string, t: string)
    requires NeatItems(items) && NeatItems(others) && Blanks(x) && Blanks(y)
    requires ItemsTo(items, x, s) == ItemsTo(others, y, t)
    ensures Elements(items) == Elements(others) && s == t
    decreases items, 0
  {
    hide ItemsTo, AfterItem, Print, Meaning;
    if items.NoItems? && others.NoItems? {
      NoItemText(x, s);
      NoItemText(y, t);
      BlanksUnique(x, "]" + s, y, "]" + t);
      SameHead(']', s, ']', t);
    } else if items.NoItems? {
      EmptyOrNot(x, s, others, y, t);
      assert false;
    } else if others.NoItems? {
      EmptyOrNot(y, t, items, x, s);
      assert false;
    } else {
      var Item(b, v, a, rest) := items;
      var Item(c, w, d, more) := others;
      ItemText(items, x, s);
      ItemText(others, y, t);
      var p, q := AfterItem(a, rest, x, s), AfterItem(d, more, y, t);
      StartOf(v, p);
      StartOf(w, q);
      BlanksUnique(b, Print(v) + p, c, Print(w) + q);
      AfterItemDelimits(a, rest, x, s);
      AfterItemDelimits(d, more, y, t);
      ValueUnique(v, p, w, q);
      AfterItemUnique(a, rest, x, s, d, more, y, t);
      if rest.Item? { ItemsUnique(rest, x, s, more, y, t); }
    }
  }

  /** The name separator: blanks, a colon, blanks. */
  lemma ColonUnique(c: string, s: string, d: string, t: string)
    requires ColonOk(c) && ColonOk(d) && Starts(s) && Starts(t) && c + s == d + t
    ensures s == t
  {
    var i :| 0 <= i < |c| && c[i] == ':' && Blanks(c[..i]) && Blanks(c[i + 1..]);
    var j :| 0 <= j < |d| && d[j] == ':' && Blanks(d[..j]) && Blanks(d[j + 1..]);
    SplitColon(c, i, s);
    SplitColon(d, j, t);
    BlanksUnique(c[..i], [':'] + (c[i + 1..] + s), d[..j], [':'] + (d[j + 1..] + t));
    SameHead(':', c[i + 1..] + s, ':', d[j + 1..] + t);
    BlanksUnique(c[i + 1..], s, d[j + 1..], t);
  }

  lemma SplitColon(c: string, i: nat, s: string)
    requires i < |c| && c[i] == ':'
    ensures c + s == c[..i] + ([':'] + (c[i + 1..] + s))
  {
    assert c == c[..i] + ([':'] + c[i + 1..]);
    Three(c[..i], [':'] + c[i + 1..], s);
    Three([':'], c[i + 1..], s);
  }

  lemma {:induction false} MembersUnique(members: Members, x: string, s: string, others: Members, y: string, t: string)
    requires NeatMembers(members) && NeatMembers(others) && Blanks(x) && Blanks(y)
    requires MembersTo(members, x, s) == MembersTo(others, y, t)
    ensures Pairs(members) == Pairs(others) && s == t
    decreases members, 0
  {
    hide MembersTo, AfterMember, Print, PrintText, Meaning, ColonOk;
    if members.NoMembers? && others.NoMembers? {
      NoMemberText(x, s);
      NoMemberText(y, t);
      BlanksUnique(x, "}" + s, y, "}" + t);
      SameHead('}', s, '}', t);
    } else if members.NoMembers? {
      EmptyOrMember(x, s, others, y, t);
      assert false;
    } else if others.NoMembers? {
      EmptyOrMember(y, t, members, x, s);
      assert false;
    } else {
      var Member(b, k, c, v, a, rest) := members;
      var Member(e, l, f, w, d, more) := others;
      MemberText(members, x, s);
      MemberText(others, y, t);
      var p, q := AfterMember(a, rest, x, s), AfterMember(d, more, y, t);
      KeyStarts(k, c + (Print(v) + p));
      KeyStarts(l, f + (Print(w) + q));
      BlanksUnique(b, PrintText(k) + (c + (Print(v) + p)), e, PrintText(l) + (f + (Print(w) + q)));
      TextUnique(k, c + (Print(v) + p), l, f + (Print(w) + q));
      StartOf(v, p);
      StartOf(w, q);
      ColonUnique(c, Print(v) + p, f, Print(w) + q);
      AfterMemberDelimits(a, rest, x, s);
      AfterMemberDelimits(d, more, y, t);
      ValueUnique(v, p, w, q);
      AfterMemberUnique(a, rest, x, s, d, more, y, t);
      if rest.Member? { MembersUnique(rest, x, s, more, y, t); }
    }
  }

  // ---------------------------------------------------------------- main results

  /** Two strict texts with the same characters mean the same value. */
  lemma PrintIsUnambiguous(d: Doc, e: Doc)
    requires ValidDoc(d) && Strict(d) && ValidDoc(e) && Strict(e)
    requires PrintDoc(d) == PrintDoc(e)
    ensures Meaning(d.value) == Meaning(e.value)
  {
    Three(d.before, Print(d.value), d.after);
    Three(e.before, Print(e.value), e.after);
    StartOf(d.value, d.after);
    StartOf(e.value, e.after);
    hide Print, Meaning, Valid, Clean;
    BlanksUnique(d.before, Print(d.value) + d.after, e.before, Print(e.value) + e.after);
    ValueUnique(d.value, d.after, e.value, e.after);
  }

  /** `text` is strict JSON, printed by `d`. */
  predicate Prints(d: Doc, text: string) { ValidDoc(d) && Strict(d) && PrintDoc(d) == text }

  /** The decoder that reads a strict text as the value it stands for. */
  ghost function Decode(text: string): Parsed {
    if exists d :: Prints(d, text) then
      var d :| Prints(d, text);
      Parsed(Meaning(d.value))
    else DecodeError
  }

  /** There is a strict decoder. */
  lemma StrictDecoderExists()
    ensures IsStrictDecoder(text => Decode(text))
  {
    hide ValidDoc, Strict, PrintDoc, Meaning;
    var loads := text => Decode(text);
    forall d | ValidDoc(d) && Strict(d) ensures loads(PrintDoc(d)) == Parsed(Meaning(d.value)) {
      var text := PrintDoc(d);
      assert Prints(d, text);
      var e :| Prints(e, text) && Decode(text) == Parsed(Meaning(e.value));
      PrintIsUnambiguous(d, e);
    }
    forall t | loads(t).Parsed? ensures exists d :: ValidDoc(d) && Strict(d) && PrintDoc(d) == t {
      var d :| Prints(d, t);
      assert ValidDoc(d) && Strict(d) && PrintDoc(d) == t;
    }
  }

  /** And only one. */
  lemma StrictDecoderIsUnique(loads: string -> Parsed, text: string)
    requires IsStrictDecoder(loads)
    ensures loads(text) == Decode(text)
  {
    hide ValidDoc, Strict, PrintDoc, Meaning;
    StrictDecoderExists();
    forall d | Prints(d, text) ensures loads(text) == Parsed(Meaning(d.value)) {
      assert loads(PrintDoc(d)) == Parsed(Meaning(d.value));
    }
    if loads(text).Parsed? {
      var d :| ValidDoc(d) && Strict(d) && PrintDoc(d) == text;
      assert Prints(d, text);
    }
  }
}
