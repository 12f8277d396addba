// What the canonical text of a JSON value is, said of the value alone.
module CanonicalText {
  import opened Wrappers
  import opened Json
  import opened Text
  import opened CanonicalJson
  import opened JsonStrings

  // ---- The spelling of a value --------------------------------------------------

  function Commas(texts: seq<string>): string {
    if texts == [] then ""
    else if |texts| == 1 then texts[0]
    else texts[0] + "," + Commas(texts[1..])
  }

  // Decimal digits without a leading zero, behind a minus for a negative number; a float
  // is its own token.
  predicate SpellsNumber(text: string, n: Number) {
    match n
    case Integer(value) => if value >= 0 then SpellsNat(text, value) else "-" <= text && SpellsNat(text[1..], -value)
    case Float(token) => text == token
  }

  predicate SpellsNat(text: string, n: nat) {
    text != [] && AllDigits(text) && Text.Value(text) == n && (|text| > 1 ==> text[0] != '0')
  }

  // A quoted string, read as section 7 of RFC 8259 says.
  predicate SpellsString(text: string, s: string) {
    "\"" <= text && ReadString(text[1..]) == Some((s, ""))
  }

  // The text of a value by section 2 of RFC 8259, without whitespace, members in the order
  // of their keys.
  ghost predicate Spells(text: string, v: Json.Value)
    decreases v
  {
    match v
    case Null => text == "null"
    case Bool(flag) => text == if flag then "true" else "false"
    case Num(number) => SpellsNumber(text, number)
    case Str(str) => SpellsString(text, str)
    case Array(items) =>
      exists texts: seq<string> ::
        && |texts| == |items| && text == "[" + Commas(texts) + "]"
        && forall i :: 0 <= i < |items| ==> Spells(texts[i], items[i])
    case Object(fields) =>
      exists keys: seq<string>, names: seq<string>, texts: seq<string> ::
        && Sorted(keys) && (forall k :: k in keys <==> k in fields) && |names| == |texts| == |keys|
        && text == "{" + Commas(Pairs(names, texts)) + "}"
        && forall i :: 0 <= i < |keys| ==> SpellsString(names[i], keys[i]) && Spells(texts[i], fields[keys[i]])
  }

  function Pairs(names: seq<string>, texts: seq<string>): seq<string>
    requires |names| == |texts|
  {
    seq(|names|, i requires 0 <= i < |names| => names[i] + ":" + texts[i])
  }

  // ---- The canonical text is that spelling --------------------------------------

  lemma {:induction false} NoLeadingZero(n: nat)
    ensures n > 0 ==> Decimal(n)[0] != '0'
    ensures n < 10 ==> |Decimal(n)| == 1
  {
    if n >= 10 {
      NoLeadingZero(n / 10);
    }
  }

  lemma DecimalSpells(n: nat)
    ensures SpellsNat(Decimal(n), n)
  {
    ValueOfDecimal(n);
    NoLeadingZero(n);
  }

  lemma QuoteSpells(s: string)
    ensures SpellsString(Quote(s), s)
  {
    QuotedReadsBack(s, "");
    assert Quote(s)[1..] == QuoteRest(s) + "";
  }

  lemma NumberSpells(n: Number)
    ensures SpellsNumber(NumberText(n), n)
  {
    if n.Integer? {
      DecimalSpells(if n.value >= 0 then n.value else -n.value);
    }
  }

  function ItemTexts(d: Document): seq<string>
    requires d.List?
  {
    seq(|d.items|, i requires 0 <= i < |d.items| => Canonical(d.items[i]))
  }

  function MemberTexts(d: Document, keys: seq<string>): seq<string>
    requires d.Record? && forall k :: k in keys ==> k in KeysOf(d.members)
  {
    seq(|keys|, i requires 0 <= i < |keys| => MemberText(d, keys[i]))
  }

  lemma CommasMore(first: string, rest: seq<string>, close: string)
    ensures Commas([first] + rest) + close == first + ((if rest == [] then "" else "," + Commas(rest)) + close)
  {
    assert ([first] + rest)[1..] == rest;
  }

  lemma {:induction false} ItemsAreCommas(d: Document, i: nat)
    requires d.List? && i <= |d.items|
    ensures ItemsRest(d, i) == (if i < |d.items| then "," + Commas(ItemTexts(d)[i..]) else "") + "]"
    decreases |d.items| - i
  {
    if i < |d.items| {
      var (texts, item) := (ItemTexts(d), Canonical(d.items[i]));
      ItemsAreCommas(d, i + 1);
      assert texts[i..] == [item] + texts[i + 1..];
      CommasMore(item, texts[i + 1..], "]");
      Regroup(",", item, ItemsRest(d, i + 1));
      Regroup(",", Commas(texts[i..]), "]");
    }
  }

  lemma ListIsCommas(d: Document)
    requires d.List?
    ensures Canonical(d) == "[" + Commas(ItemTexts(d)) + "]"
  {
    var texts := ItemTexts(d);
    assert texts[0..] == texts;
    if d.items == [] {
      ItemsAreCommas(d, 0);
    } else {
      ItemsAreCommas(d, 1);
      assert texts == [texts[0]] + texts[1..];
      CommasMore(texts[0], texts[1..], "]");
      Regroup("[", Commas(texts), "]");
    }
  }

  lemma {:induction false} MembersAreCommas(d: Document, keys: seq<string>)
    requires d.Record? && forall k :: k in keys ==> k in KeysOf(d.members)
    ensures MembersRest(d, keys) == (if keys == [] then "" else "," + Commas(MemberTexts(d, keys))) + "}"
    decreases |keys|
  {
    if keys != [] {
      var member := MemberText(d, keys[0]);
      MembersAreCommas(d, keys[1..]);
      assert MemberTexts(d, keys) == [member] + MemberTexts(d, keys[1..]);
      CommasMore(member, MemberTexts(d, keys[1..]), "}");
      Regroup(",", member, MembersRest(d, keys[1..]));
      Regroup(",", Commas(MemberTexts(d, keys)), "}");
    }
  }

  lemma RecordIsCommas(d: Document, keys: seq<string>)
    requires d.Record? && forall k :: k in keys ==> k in KeysOf(d.members)
    ensures "{" + MembersFrom(d, keys, true) == "{" + Commas(MemberTexts(d, keys)) + "}"
  {
    MembersAreCommas(d, if keys == [] then [] else keys[1..]);
    if keys != [] {
      assert MemberTexts(d, keys) == [MemberText(d, keys[0])] + MemberTexts(d, keys[1..]);
      CommasMore(MemberText(d, keys[0]), MemberTexts(d, keys[1..]), "}");
      Regroup("{", Commas(MemberTexts(d, keys)), "}");
    }
  }

  lemma ArraySpells(items: seq<Json.Value>, texts: seq<string>)
    requires |texts| == |items| && forall i :: 0 <= i < |items| ==> Spells(texts[i], items[i])
    ensures Spells("[" + Commas(texts) + "]", Array(items))
  {
  }

  lemma ObjectSpells(fields: map<string, Json.Value>, keys: seq<string>, names: seq<string>, texts: seq<string>)
    requires Sorted(keys) && (forall k :: k in keys <==> k in fields) && |names| == |texts| == |keys|
    requires forall i :: 0 <= i < |keys| ==> SpellsString(names[i], keys[i]) && Spells(texts[i], fields[keys[i]])
    ensures Spells("{" + Commas(Pairs(names, texts)) + "}", Object(fields))
  {
  }

  // The serializer writes that text, whatever the order the members came in.
  lemma {:induction false} CanonicalSpells(d: Document)
    requires WellFormed(d)
    ensures Spells(Canonical(d), Denote(d))
    decreases d
  {
    match d
    case Num(number) => NumberSpells(number);
    case Str(str) => QuoteSpells(str);
    case List(items) =>
      forall i | 0 <= i < |items| ensures Spells(ItemTexts(d)[i], Denote(d).items[i]) {
        CanonicalSpells(items[i]);
      }
      ListIsCommas(d);
      ArraySpells(Denote(d).items, ItemTexts(d));
    case Record(members) => RecordSpells(d);
    case _ =>
  }

  lemma {:induction false} RecordSpells(d: Document)
    requires WellFormed(d) && d.Record?
    ensures Spells(Canonical(d), Denote(d))
    decreases d, 0
  {
    var keys := Sort(KeysOf(d.members));
    SortSorts(KeysOf(d.members));
    var names := seq(|keys|, i requires 0 <= i < |keys| => Quote(keys[i]));
    var texts := seq(|keys|, i requires 0 <= i < |keys| => Canonical(Lookup(d.members, keys[i])));
    forall i | 0 <= i < |keys|
      ensures SpellsString(names[i], keys[i]) && Spells(texts[i], Denote(d).fields[keys[i]])
    {
      QuoteSpells(keys[i]);
      CanonicalSpells(Lookup(d.members, keys[i]));
    }
    assert Pairs(names, texts) == MemberTexts(d, keys);
    RecordIsCommas(d, keys);
    ObjectSpells(Denote(d).fields, keys, names, texts);
  }
}
