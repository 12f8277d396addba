// Two documents have one canonical text exactly when they are one JSON value.
module CanonicalInjective {
  import opened Json
  import opened Text
  import opened CanonicalJson

  // What may follow a value inside a document.
  predicate Delimited(r: string) {
    r == [] || r[0] == ',' || r[0] == ']' || r[0] == '}'
  }

  lemma CutPrefix(p: string, u: string, v: string)
    requires p + u == p + v
    ensures u == v
  {
    assert u == (p + u)[|p|..] && v == (p + v)[|p|..];
  }

  // ---- Strings ----------------------------------------------------------------

  // An escape is read off the front of a text in one way only.
  lemma EscapeUnique(c: char, d: char, u: string, v: string)
    requires Escape(c) + u == Escape(d) + v
    ensures c == d && u == v
  {
    var (p, q) := (Escape(c), Escape(d));
    EscapeShape(c);
    EscapeShape(d);
    var whole := p + u;
    assert whole == q + v;
    assert whole[0] == p[0] == q[0];
    if p[0] == '\\' {
      assert whole[1] == p[1] == q[1];
      if p[1] == 'u' {
        assert whole[4] == p[4] == q[4] && whole[5] == p[5] == q[5];
        HexUnique(c as int / 16, d as int / 16);
        HexUnique(c as int % 16, d as int % 16);
      }
    }
    assert c == d;
    CutPrefix(p, u, v);
  }

  lemma HexUnique(m: nat, n: nat)
    requires m < 16 && n < 16 && HexDigit(m) == HexDigit(n)
    ensures m == n
  {
  }

  lemma EscapeShape(c: char)
    ensures var p := Escape(c);
            && p != [] && p[0] != '"'
            && (p[0] == '\\' ==> |p| == 2 || |p| == 6)
            && (p[0] != '\\' ==> p == [c])
            && (p[0] == '\\' && |p| == 6 ==>
                  p[1] == 'u' && c < ' ' && p[4] == HexDigit(c as int / 16) && p[5] == HexDigit(c as int % 16))
            && (p[0] == '\\' && |p| == 2 ==> p[1] != 'u' && Unescape(p[1]) == c)
  {
  }

  // The character a short escape stands for.
  function Unescape(e: char): char {
    if e == 'b' then '\U{08}' else if e == 't' then '\t' else if e == 'n' then '\n'
    else if e == 'f' then '\U{0C}' else if e == 'r' then '\r' else e
  }

  lemma Assoc(a: string, b: string, c: string)
    ensures a + b + c == a + (b + c)
  {
  }

  lemma FirstOf(a: string, b: string)
    requires a != []
    ensures (a + b)[0] == a[0]
  {
  }

  lemma QuoteSplits(y: string, s: string)
    ensures y != [] ==> QuoteRest(y) + s == Escape(y[0]) + (QuoteRest(y[1..]) + s)
    ensures QuoteRest(y) != [] && (QuoteRest(y)[0] == '"' <==> y == [])
  {
    if y != [] {
      EscapeShape(y[0]);
      FirstOf(Escape(y[0]), QuoteRest(y[1..]));
      Assoc(Escape(y[0]), QuoteRest(y[1..]), s);
    }
  }

  // Both texts end their string at once, or neither does.
  lemma QuoteEnds(x: string, y: string, r: string, s: string)
    requires QuoteRest(x) + r == QuoteRest(y) + s
    ensures x == [] <==> y == []
  {
    QuoteSplits(x, r);
    QuoteSplits(y, s);
    FirstOf(QuoteRest(x), r);
    FirstOf(QuoteRest(y), s);
  }

  lemma {:induction false} QuoteUnique(x: string, y: string, r: string, s: string)
    requires QuoteRest(x) + r == QuoteRest(y) + s
    ensures x == y && r == s
    decreases |x|
  {
    QuoteEnds(x, y, r, s);
    QuoteSplits(x, r);
    QuoteSplits(y, s);
    if x == [] {
      CutPrefix("\"", r, s);
    } else {
      EscapeUnique(x[0], y[0], QuoteRest(x[1..]) + r, QuoteRest(y[1..]) + s);
      QuoteUnique(x[1..], y[1..], r, s);
      assert x == [x[0]] + x[1..] && y == [y[0]] + y[1..];
    }
  }

  // ---- Numbers ----------------------------------------------------------------

  predicate AllNumberChars(s: string) {
    forall i :: 0 <= i < |s| ==> IsNumberChar(s[i])
  }

  // A token that is followed by a delimiter is no shorter than one it starts with.
  lemma TokenNoShorter(x: string, y: string, r: string, s: string)
    requires AllNumberChars(y) && Delimited(r) && x + r == y + s
    ensures |y| <= |x|
  {
    var whole := x + r;
    assert forall i :: 0 <= i < |r| ==> whole[|x| + i] == r[i];
    assert forall i :: 0 <= i < |y| ==> whole[i] == y[i];
    assert |whole| == |y| + |s|;
  }

  lemma TokenUnique(x: string, y: string, r: string, s: string)
    requires AllNumberChars(x) && AllNumberChars(y) && Delimited(r) && Delimited(s)
    requires x + r == y + s
    ensures x == y && r == s
  {
    TokenNoShorter(x, y, r, s);
    TokenNoShorter(y, x, s, r);
    assert x == (x + r)[..|x|] && y == (y + s)[..|y|];
    CutPrefix(x, r, s);
  }

  lemma NumberShape(n: Number)
    ensures AllNumberChars(NumberText(n)) && NumberText(n) != []
    ensures NumberText(n)[0] == '-' || IsDigit(NumberText(n)[0])
    ensures n.Integer? ==> '.' !in NumberText(n) && 'e' !in NumberText(n)
  {
  }

  lemma NumberUnique(m: Number, n: Number)
    requires NumberText(m) == NumberText(n)
    ensures m == n
  {
    NumberShape(m);
    NumberShape(n);
    if m.Integer? && n.Integer? {
      var (a, b) := (m.value as int, n.value as int);
      assert a < 0 <==> NumberText(m)[0] == '-';
      assert b < 0 <==> NumberText(n)[0] == '-';
      if a >= 0 {
        DecimalInjective(a, b);
      } else {
        CutPrefix("-", Decimal(-a), Decimal(-b));
        DecimalInjective(-a, -b);
      }
    }
  }

  // ---- Documents --------------------------------------------------------------

  // The first character gives the kind of value away.
  function Mark(d: Document): char {
    match d
    case Null => 'n'
    case Bool(flag) => if flag then 't' else 'f'
    case Num(_) => '0'
    case Str(_) => '"'
    case List(_) => '['
    case Record(_) => '{'
  }

  lemma Head(d: Document)
    ensures Canonical(d) != []
    ensures var c := Canonical(d)[0]; Mark(d) == if c == '-' || IsDigit(c) then '0' else c
  {
    if d.Num? {
      NumberShape(d.number);
    }
  }

  lemma SameKind(a: Document, b: Document, r: string, s: string)
    requires Canonical(a) + r == Canonical(b) + s
    ensures Mark(a) == Mark(b)
  {
    Head(a);
    Head(b);
    assert Canonical(a)[0] == (Canonical(a) + r)[0] == (Canonical(b) + s)[0] == Canonical(b)[0];
  }

  // A canonical text is read off the front of a longer one in one way only.
  lemma {:induction false} DocumentUnique(a: Document, b: Document, r: string, s: string)
    requires WellFormed(a) && WellFormed(b) && Delimited(r) && Delimited(s)
    requires Canonical(a) + r == Canonical(b) + s
    ensures Denote(a) == Denote(b) && r == s
    decreases a, 3
  {
    SameKind(a, b, r, s);
    if a.List? {
      ListUnique(a, b, r, s);
    } else if a.Record? {
      RecordUnique(a, b, r, s);
    } else {
      ScalarUnique(a, b, r, s);
    }
  }

  lemma ScalarUnique(a: Document, b: Document, r: string, s: string)
    requires !a.List? && !a.Record? && Mark(a) == Mark(b) && Delimited(r) && Delimited(s)
    requires Canonical(a) + r == Canonical(b) + s
    ensures a == b && r == s
  {
    if a.Str? {
      StringUnique(a.str, b.str, r, s);
    } else if a.Num? {
      NumberShape(a.number);
      NumberShape(b.number);
      TokenUnique(NumberText(a.number), NumberText(b.number), r, s);
      NumberUnique(a.number, b.number);
    } else {
      CutPrefix(Canonical(a), r, s);
    }
  }

  lemma StringUnique(x: string, y: string, r: string, s: string)
    requires Quote(x) + r == Quote(y) + s
    ensures x == y && r == s
  {
    Assoc("\"", QuoteRest(x), r);
    Assoc("\"", QuoteRest(y), s);
    CutPrefix("\"", QuoteRest(x) + r, QuoteRest(y) + s);
    QuoteUnique(x, y, r, s);
  }

  lemma {:induction false} ListUnique(a: Document, b: Document, r: string, s: string)
    requires a.List? && b.List? && WellFormed(a) && WellFormed(b) && Delimited(r) && Delimited(s)
    requires Canonical(a) + r == Canonical(b) + s
    ensures Denote(a) == Denote(b) && r == s
    decreases a, 2, |a.items| + 1
  {
    var (ra, rb) := (ItemsFrom(a, 0, true) + r, ItemsFrom(b, 0, true) + s);
    assert Canonical(a) + r == "[" + ra && Canonical(b) + s == "[" + rb;
    CutPrefix("[", ra, rb);
    ItemsUnique(a, b, 0, true, r, s);
    ListEqual(a, b);
  }

  lemma {:induction false} RecordUnique(a: Document, b: Document, r: string, s: string)
    requires a.Record? && b.Record? && WellFormed(a) && WellFormed(b) && Delimited(r) && Delimited(s)
    requires Canonical(a) + r == Canonical(b) + s
    ensures Denote(a) == Denote(b) && r == s
    decreases a, 2, |Sort(KeysOf(a.members))| + 1
  {
    var (ka, kb) := (Sort(KeysOf(a.members)), Sort(KeysOf(b.members)));
    SortKeepsKeys(KeysOf(a.members));
    SortKeepsKeys(KeysOf(b.members));
    var (ra, rb) := (MembersFrom(a, ka, true) + r, MembersFrom(b, kb, true) + s);
    assert Canonical(a) + r == "{" + ra && Canonical(b) + s == "{" + rb;
    CutPrefix("{", ra, rb);
    MembersUnique(a, ka, b, kb, true, r, s);
    RecordEqual(a, ka, b, kb);
  }

  lemma ListEqual(a: Document, b: Document)
    requires a.List? && b.List? && |a.items| == |b.items|
    requires forall j :: 0 <= j < |a.items| ==> Denote(a.items[j]) == Denote(b.items[j])
    ensures Denote(a) == Denote(b)
  {
    assert Denote(a).items == Denote(b).items;
  }

  lemma RecordEqual(a: Document, ka: seq<string>, b: Document, kb: seq<string>)
    requires a.Record? && b.Record? && ka == kb
    requires forall k :: k in ka <==> k in KeysOf(a.members)
    requires forall k :: k in kb <==> k in KeysOf(b.members)
    requires forall k :: k in ka ==> Denote(Lookup(a.members, k)) == Denote(Lookup(b.members, k))
    ensures Denote(a) == Denote(b)
  {
    assert Denote(a).fields == Denote(b).fields;
  }

  lemma {:induction false} ItemsUnique(a: Document, b: Document, i: nat, first: bool, r: string, s: string)
    requires WellFormed(a) && WellFormed(b) && a.List? && b.List? && Delimited(r) && Delimited(s)
    requires i <= |a.items| && i <= |b.items|
    requires ItemsFrom(a, i, first) + r == ItemsFrom(b, i, first) + s
    ensures |a.items| == |b.items| && r == s
    ensures forall j :: i <= j < |a.items| ==> Denote(a.items[j]) == Denote(b.items[j])
    decreases a, 2, |a.items| - i
  {
    if i == |a.items| || i == |b.items| {
      EndOfItems(a, b, i, first, r, s);
      CutPrefix("]", r, s);
    } else {
      FirstItem(a, b, i, first, r, s);
      DocumentUnique(a.items[i], b.items[i], ItemsRest(a, i + 1) + r, ItemsRest(b, i + 1) + s);
      ItemsUnique(a, b, i + 1, false, r, s);
    }
  }

  lemma FirstItem(a: Document, b: Document, i: nat, first: bool, r: string, s: string)
    requires a.List? && b.List? && i < |a.items| && i < |b.items|
    requires ItemsFrom(a, i, first) + r == ItemsFrom(b, i, first) + s
    ensures Canonical(a.items[i]) + (ItemsRest(a, i + 1) + r) == Canonical(b.items[i]) + (ItemsRest(b, i + 1) + s)
  {
    ItemSplits(a, i, first, r);
    ItemSplits(b, i, first, s);
    CutPrefix(if first then "" else ",", Canonical(a.items[i]) + (ItemsRest(a, i + 1) + r),
              Canonical(b.items[i]) + (ItemsRest(b, i + 1) + s));
  }

  lemma ItemSplits(a: Document, i: nat, first: bool, r: string)
    requires a.List? && i < |a.items|
    ensures ItemsFrom(a, i, first) + r
         == (if first then "" else ",") + (Canonical(a.items[i]) + (ItemsRest(a, i + 1) + r))
  {
    var comma := if first then "" else ",";
    assert ItemsFrom(a, i, first) == comma + Canonical(a.items[i]) + ItemsRest(a, i + 1);
    RegroupThree(comma, Canonical(a.items[i]), ItemsRest(a, i + 1), r);
  }

  lemma RegroupThree(a: string, b: string, c: string, d: string)
    ensures a + b + c + d == a + (b + (c + d))
  {
  }

  // One array cannot end where the other goes on.
  lemma EndOfItems(a: Document, b: Document, i: nat, first: bool, r: string, s: string)
    requires a.List? && b.List? && i <= |a.items| && i <= |b.items|
    requires i == |a.items| || i == |b.items|
    requires ItemsFrom(a, i, first) + r == ItemsFrom(b, i, first) + s
    ensures |a.items| == |b.items| == i
  {
    assert (ItemsFrom(a, i, first) + r)[0] == (ItemsFrom(b, i, first) + s)[0];
    if i < |a.items| {
      Head(a.items[i]);
    }
    if i < |b.items| {
      Head(b.items[i]);
    }
  }

  lemma {:induction false} MembersUnique(a: Document, ka: seq<string>, b: Document, kb: seq<string>, first: bool,
                                          r: string, s: string)
    requires WellFormed(a) && WellFormed(b) && a.Record? && b.Record? && Delimited(r) && Delimited(s)
    requires forall k :: k in ka ==> k in KeysOf(a.members)
    requires forall k :: k in kb ==> k in KeysOf(b.members)
    requires MembersFrom(a, ka, first) + r == MembersFrom(b, kb, first) + s
    ensures ka == kb && r == s
    ensures forall k :: k in ka ==> Denote(Lookup(a.members, k)) == Denote(Lookup(b.members, k))
    decreases a, 2, |ka|
  {
    if ka == [] || kb == [] {
      EndOfMembers(a, ka, b, kb, first, r, s);
      CutPrefix("}", r, s);
    } else {
      var (va, vb) := (Lookup(a.members, ka[0]), Lookup(b.members, kb[0]));
      var (ra, rb) := (MembersRest(a, ka[1..]) + r, MembersRest(b, kb[1..]) + s);
      FirstMember(a, ka, b, kb, first, r, s);
      DocumentUnique(va, vb, ra, rb);
      MembersUnique(a, ka[1..], b, kb[1..], false, r, s);
      assert ka == [ka[0]] + ka[1..] && kb == [kb[0]] + kb[1..];
    }
  }

  // Two listings of members that read alike start with one key, and go on alike.
  lemma FirstMember(a: Document, ka: seq<string>, b: Document, kb: seq<string>, first: bool, r: string, s: string)
    requires a.Record? && b.Record? && ka != [] && kb != []
    requires forall k :: k in ka ==> k in KeysOf(a.members)
    requires forall k :: k in kb ==> k in KeysOf(b.members)
    requires MembersFrom(a, ka, first) + r == MembersFrom(b, kb, first) + s
    ensures ka[0] == kb[0]
    ensures Canonical(Lookup(a.members, ka[0])) + (MembersRest(a, ka[1..]) + r)
         == Canonical(Lookup(b.members, kb[0])) + (MembersRest(b, kb[1..]) + s)
  {
    var (va, vb) := (Canonical(Lookup(a.members, ka[0])), Canonical(Lookup(b.members, kb[0])));
    var (ra, rb) := (MembersRest(a, ka[1..]) + r, MembersRest(b, kb[1..]) + s);
    MemberSplits(a, ka, first, r);
    MemberSplits(b, kb, first, s);
    CutPrefix(if first then "" else ",", Quote(ka[0]) + (":" + (va + ra)), Quote(kb[0]) + (":" + (vb + rb)));
    StringUnique(ka[0], kb[0], ":" + (va + ra), ":" + (vb + rb));
    CutPrefix(":", va + ra, vb + rb);
  }

  lemma MemberSplits(a: Document, ka: seq<string>, first: bool, r: string)
    requires a.Record? && ka != [] && forall k :: k in ka ==> k in KeysOf(a.members)
    ensures MembersFrom(a, ka, first) + r
         == (if first then "" else ",")
            + (Quote(ka[0]) + (":" + (Canonical(Lookup(a.members, ka[0])) + (MembersRest(a, ka[1..]) + r))))
  {
    var (q, v, rest) := (Quote(ka[0]), Canonical(Lookup(a.members, ka[0])), MembersRest(a, ka[1..]));
    var comma := if first then "" else ",";
    var text := MemberText(a, ka[0]);
    assert text == q + ":" + v;
    assert MembersFrom(a, ka, first) == comma + text + rest;
    RegroupMember(comma, q, v, rest, r);
  }

  lemma RegroupMember(comma: string, q: string, v: string, rest: string, r: string)
    ensures comma + (q + ":" + v) + rest + r == comma + (q + (":" + (v + (rest + r))))
  {
  }

  lemma EndOfMembers(a: Document, ka: seq<string>, b: Document, kb: seq<string>, first: bool,
                                          r: string, s: string)
    requires a.Record? && b.Record? && (ka == [] || kb == [])
    requires forall k :: k in ka ==> k in KeysOf(a.members)
    requires forall k :: k in kb ==> k in KeysOf(b.members)
    requires MembersFrom(a, ka, first) + r == MembersFrom(b, kb, first) + s
    ensures ka == [] && kb == []
  {
    assert (MembersFrom(a, ka, first) + r)[0] == (MembersFrom(b, kb, first) + s)[0];
  }

  // ---- Equal values, equal texts ----------------------------------------------

  lemma {:induction false} SameValueSameText(a: Document, b: Document)
    requires WellFormed(a) && WellFormed(b) && Denote(a) == Denote(b)
    ensures Canonical(a) == Canonical(b)
    decreases a, 3
  {
    match a {
      case List(items) =>
        SameItems(a, b, 0);
        if items != [] {
          assert Denote(a).items[0] == Denote(b).items[0];
          SameValueSameText(a.items[0], b.items[0]);
          SameItems(a, b, 1);
        }
      case Record(members) =>
        var (ka, kb) := (Sort(KeysOf(a.members)), Sort(KeysOf(b.members)));
        SameKeys(a, b);
        SortKeepsKeys(KeysOf(a.members));
        if ka != [] {
          SameMember(a, b, ka[0]);
          SameMembers(a, b, ka[1..]);
        }
      case _ =>
    }
  }

  // The keys come out in one order whatever order they went in.
  lemma SameKeys(a: Document, b: Document)
    requires WellFormed(a) && WellFormed(b) && a.Record? && b.Record? && Denote(a) == Denote(b)
    ensures Sort(KeysOf(a.members)) == Sort(KeysOf(b.members))
    ensures forall k :: k in KeysOf(a.members) <==> k in KeysOf(b.members)
  {
    assert forall k :: k in Denote(a).fields <==> k in KeysOf(a.members);
    assert forall k :: k in Denote(b).fields <==> k in KeysOf(b.members);
    SortSorts(KeysOf(a.members));
    SortSorts(KeysOf(b.members));
    SortedUnique(Sort(KeysOf(a.members)), Sort(KeysOf(b.members)));
  }

  lemma {:induction false} SameItems(a: Document, b: Document, i: nat)
    requires WellFormed(a) && WellFormed(b) && a.List? && b.List? && Denote(a) == Denote(b)
    requires i <= |a.items|
    ensures |a.items| == |b.items| && ItemsRest(a, i) == ItemsRest(b, i)
    decreases a, 2, |a.items| - i
  {
    assert |Denote(a).items| == |a.items| && |Denote(b).items| == |b.items|;
    if i < |a.items| {
      assert Denote(a).items[i] == Denote(b).items[i];
      SameValueSameText(a.items[i], b.items[i]);
      SameItems(a, b, i + 1);
    }
  }

  lemma {:induction false} SameMember(a: Document, b: Document, k: string)
    requires WellFormed(a) && WellFormed(b) && a.Record? && b.Record? && Denote(a) == Denote(b)
    requires k in KeysOf(a.members) && k in KeysOf(b.members)
    ensures MemberText(a, k) == MemberText(b, k)
    decreases a, 1
  {
    assert Denote(a).fields[k] == Denote(b).fields[k];
    SameValueSameText(a.members[IndexOf(a.members, k)].1, b.members[IndexOf(b.members, k)].1);
  }

  lemma {:induction false} SameMembers(a: Document, b: Document, keys: seq<string>)
    requires WellFormed(a) && WellFormed(b) && a.Record? && b.Record? && Denote(a) == Denote(b)
    requires forall k :: k in keys ==> k in KeysOf(a.members) && k in KeysOf(b.members)
    ensures MembersRest(a, keys) == MembersRest(b, keys)
    decreases a, 2, |keys|
  {
    if keys != [] {
      SameMember(a, b, keys[0]);
      SameMembers(a, b, keys[1..]);
    }
  }

  // The hash input tells two bodies apart exactly when they are different values,
  // whatever order their members were inserted in.
  lemma CanonicalIsInjective(a: Document, b: Document)
    requires WellFormed(a) && WellFormed(b)
    ensures Canonical(a) == Canonical(b) <==> Denote(a) == Denote(b)
  {
    if Canonical(a) == Canonical(b) {
      DocumentUnique(a, b, [], []);
    }
    if Denote(a) == Denote(b) {
      SameValueSameText(a, b);
    }
  }
}
