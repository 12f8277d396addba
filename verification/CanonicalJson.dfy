// The canonical serialization the response cache hashes, and why two bodies share
// one exactly when they are the same JSON value.
module CanonicalJson {
  import opened Json
  import opened Text

  // A JSON document as it was built: object members in some order of insertion.
  datatype Document =
    | Null
    | Bool(flag: bool)
    | Num(number: Number)
    | Str(str: string)
    | List(items: seq<Document>)
    | Record(members: seq<(string, Document)>)

  function KeysOf(members: seq<(string, Document)>): (r: seq<string>)
    ensures |r| == |members| && forall i :: 0 <= i < |r| ==> r[i] == members[i].0
  {
    seq(|members|, i requires 0 <= i < |members| => members[i].0)
  }

  predicate Distinct(keys: seq<string>) {
    forall i, j :: 0 <= i < j < |keys| ==> keys[i] != keys[j]
  }

  // A JSON map never holds a key twice.
  predicate WellFormed(d: Document) {
    match d
    case List(items) => forall i :: 0 <= i < |items| ==> WellFormed(items[i])
    case Record(members) =>
      Distinct(KeysOf(members)) && forall i :: 0 <= i < |members| ==> WellFormed(members[i].1)
    case _ => true
  }

  function IndexOf(members: seq<(string, Document)>, key: string): (i: nat)
    requires key in KeysOf(members)
    ensures i < |members| && members[i].0 == key
  {
    if members[0].0 == key then 0
    else
      assert key in KeysOf(members[1..]) by {
        var j :| 0 <= j < |KeysOf(members)| && KeysOf(members)[j] == key;
        assert KeysOf(members[1..])[j - 1] == key;
      }
      1 + IndexOf(members[1..], key)
  }

  function Lookup(members: seq<(string, Document)>, key: string): Document
    requires key in KeysOf(members)
  {
    members[IndexOf(members, key)].1
  }

  // The value a document stands for: objects are maps.
  function Denote(d: Document): Value
    decreases d
  {
    match d
    case Null => Value.Null
    case Bool(flag) => Value.Bool(flag)
    case Num(number) => Value.Num(number)
    case Str(str) => Value.Str(str)
    case List(items) => Array(seq(|items|, i requires 0 <= i < |items| => Denote(items[i])))
    case Record(members) =>
      Object(map key | key in KeysOf(members) :: Denote(members[IndexOf(members, key)].1))
  }

  // ---- Key order --------------------------------------------------------------

  predicate Sorted(keys: seq<string>) {
    forall i, j :: 0 <= i < j < |keys| ==> Less(keys[i], keys[j])
  }

  function Insert(key: string, sorted: seq<string>): seq<string> {
    if sorted == [] || Less(key, sorted[0]) then [key] + sorted
    else [sorted[0]] + Insert(key, sorted[1..])
  }

  function Sort(keys: seq<string>): seq<string> {
    if keys == [] then [] else Insert(keys[0], Sort(keys[1..]))
  }

  lemma {:induction false} InsertKeepsKeys(key: string, sorted: seq<string>, k: string)
    ensures k in Insert(key, sorted) <==> k == key || k in sorted
  {
    if !(sorted == [] || Less(key, sorted[0])) {
      InsertKeepsKeys(key, sorted[1..], k);
    }
  }

  lemma {:induction false} InsertSorts(key: string, sorted: seq<string>)
    requires Sorted(sorted) && key !in sorted
    ensures Sorted(Insert(key, sorted))
  {
    if sorted == [] {
    } else if Less(key, sorted[0]) {
      forall j | 0 <= j < |sorted| ensures Less(key, sorted[j]) {
        if j > 0 { LessTransitive(key, sorted[0], sorted[j]); }
      }
    } else {
      LessTotal(key, sorted[0]);
      InsertSorts(key, sorted[1..]);
      var rest := Insert(key, sorted[1..]);
      forall j | 0 <= j < |rest| ensures Less(sorted[0], rest[j]) {
        InsertKeepsKeys(key, sorted[1..], rest[j]);
      }
    }
  }

  lemma {:induction false} SortSorts(keys: seq<string>)
    requires Distinct(keys)
    ensures Sorted(Sort(keys))
    ensures forall k :: k in Sort(keys) <==> k in keys
  {
    if keys != [] {
      SortSorts(keys[1..]);
      assert keys[0] !in keys[1..];
      InsertSorts(keys[0], Sort(keys[1..]));
      forall k ensures k in Sort(keys) <==> k in keys {
        InsertKeepsKeys(keys[0], Sort(keys[1..]), k);
        assert keys == [keys[0]] + keys[1..];
      }
    }
  }

  // There is one sorted way to list a set of keys.
  lemma {:induction false} SortedUnique(a: seq<string>, b: seq<string>)
    requires Sorted(a) && Sorted(b) && forall k :: k in a <==> k in b
    ensures a == b
  {
    assert a != [] ==> a[0] in a;
    assert b != [] ==> b[0] in b;
    if a != [] && b != [] {
      LeastFirst(a, b);
      forall k ensures k in a[1..] <==> k in b[1..] {
        TailMembers(a, k);
        TailMembers(b, k);
      }
      SortedUnique(a[1..], b[1..]);
      assert a == [a[0]] + a[1..] && b == [b[0]] + b[1..];
    }
  }

  lemma TailMembers(a: seq<string>, k: string)
    requires a != [] && Sorted(a)
    ensures k in a[1..] <==> k in a && k != a[0]
  {
    assert a == [a[0]] + a[1..];
    LessIrreflexive(a[0]);
    assert forall j :: 0 < j < |a| ==> Less(a[0], a[j]);
  }

  lemma LeastFirst(a: seq<string>, b: seq<string>)
    requires Sorted(a) && Sorted(b) && a != [] && b != []
    requires forall k :: k in a <==> k in b
    ensures a[0] == b[0]
  {
    assert a[0] in b && b[0] in a;
    var i :| 0 <= i < |b| && b[i] == a[0];
    var j :| 0 <= j < |a| && a[j] == b[0];
    if i > 0 && j > 0 {
      LessTotal(a[0], b[0]);
    }
  }

  // ---- The serializer ---------------------------------------------------------

  function HexDigit(n: nat): char
    requires n < 16
  {
    if n < 10 then DigitChar(n) else (n - 10 + 'a' as int) as char
  }

  // String escapes of section 7 of RFC 8259, in the short forms where there are any.
  function Escape(c: char): string {
    if c == '"' then "\\\""
    else if c == '\\' then "\\\\"
    else if c == '\U{08}' then "\\b"
    else if c == '\t' then "\\t"
    else if c == '\n' then "\\n"
    else if c == '\U{0C}' then "\\f"
    else if c == '\r' then "\\r"
    else if c < ' ' then "\\u00" + [HexDigit(c as int / 16), HexDigit(c as int % 16)]
    else [c]
  }

  // The escaped characters and the closing quote.
  function QuoteRest(s: string): string {
    if s == [] then "\"" else Escape(s[0]) + QuoteRest(s[1..])
  }

  function Quote(s: string): string {
    "\"" + QuoteRest(s)
  }

  function NumberText(n: Number): string {
    match n
    case Integer(value) => if value >= 0 then Decimal(value) else "-" + Decimal(-value)
    case Float(token) => token
  }

  function Canonical(d: Document): string
    decreases d, 3
  {
    match d
    case Null => "null"
    case Bool(flag) => if flag then "true" else "false"
    case Num(number) => NumberText(number)
    case Str(str) => Quote(str)
    case List(items) =>
      "[" + ItemsFrom(d, 0, true)
    case Record(members) =>
      var keys := Sort(KeysOf(members));
      SortKeepsKeys(KeysOf(members));
      "{" + MembersFrom(d, keys, true)
  }

  lemma {:induction false} SortKeepsKeys(keys: seq<string>)
    ensures forall k :: k in Sort(keys) <==> k in keys
  {
    if keys != [] {
      SortKeepsKeys(keys[1..]);
      forall k ensures k in Sort(keys) <==> k in keys {
        InsertKeepsKeys(keys[0], Sort(keys[1..]), k);
        assert keys == [keys[0]] + keys[1..];
      }
    }
  }

  // The items of an array from position i on, each after its comma, and the bracket.
  function ItemsRest(d: Document, i: nat): string
    requires d.List? && i <= |d.items|
    decreases d, 1, |d.items| - i
  {
    if i == |d.items| then "]" else "," + Canonical(d.items[i]) + ItemsRest(d, i + 1)
  }

  function MemberText(d: Document, key: string): string
    requires d.Record? && key in KeysOf(d.members)
    decreases d, 1
  {
    Quote(key) + ":" + Canonical(d.members[IndexOf(d.members, key)].1)
  }

  function MembersRest(d: Document, keys: seq<string>): string
    requires d.Record? && forall k :: k in keys ==> k in KeysOf(d.members)
    decreases d, 2, |keys|, 0
  {
    if keys == [] then "}" else "," + MemberText(d, keys[0]) + MembersRest(d, keys[1..])
  }

  // The recursive writer over one growing buffer.
  method WriteCanonical(d: Document, buffer: string) returns (out: string)
    ensures out == buffer + Canonical(d)
    decreases d
  {
    match d {
      case Record(members) =>
        var keys := Sort(KeysOf(members));
        SortKeepsKeys(KeysOf(members));
        assert keys[0..] == keys;
        out := buffer + "{";
        for position := 0 to |keys|
          invariant out + MembersFrom(d, keys[position..], position == 0) == buffer + Canonical(d)
        {
          ghost var (before, rest) := (out, MembersRest(d, keys[position + 1..]));
          if position > 0 {
            out := out + ",";
          }
          var key := keys[position];
          out := out + Quote(key);
          out := out + ":";
          out := WriteCanonical(members[IndexOf(members, key)].1, out);
          assert keys[position..][0] == key && keys[position..][1..] == keys[position + 1..];
          assert MemberText(d, key) == Quote(key) + ":" + Canonical(members[IndexOf(members, key)].1);
          AppendMember(before, if position > 0 then "," else "", Quote(key),
                       Canonical(members[IndexOf(members, key)].1), rest);
        }
        out := out + "}";
      case List(items) =>
        out := buffer + "[";
        for position := 0 to |items|
          invariant out + ItemsFrom(d, position, position == 0) == buffer + Canonical(d)
        {
          ghost var before := out;
          if position > 0 {
            out := out + ",";
          }
          out := WriteCanonical(items[position], out);
          AppendItem(before, if position > 0 then "," else "", Canonical(items[position]), ItemsRest(d, position + 1));
        }
        out := out + "]";
      case _ =>
        out := buffer + Canonical(d);
    }
  }

  // What is still to be written of an array, or of an object.
  function ItemsFrom(d: Document, i: nat, first: bool): string
    requires d.List? && i <= |d.items|
    decreases d, 2
  {
    if first && i < |d.items| then Canonical(d.items[i]) + ItemsRest(d, i + 1) else ItemsRest(d, i)
  }

  function MembersFrom(d: Document, keys: seq<string>, first: bool): string
    requires d.Record? && forall k :: k in keys ==> k in KeysOf(d.members)
    decreases d, 2, |keys|, 1
  {
    if first && keys != [] then MemberText(d, keys[0]) + MembersRest(d, keys[1..]) else MembersRest(d, keys)
  }

  lemma AppendItem(out: string, comma: string, item: string, rest: string)
    ensures out + (comma + item + rest) == out + comma + item + rest
    ensures comma == [] ==> out + (item + rest) == out + comma + item + rest && out + comma == out
  {
  }

  lemma AppendMember(out: string, comma: string, key: string, value: string, rest: string)
    ensures out + (comma + (key + ":" + value) + rest) == out + comma + key + ":" + value + rest
    ensures comma == [] ==> out + ((key + ":" + value) + rest) == out + comma + key + ":" + value + rest
    ensures comma == [] ==> out + comma == out
  {
  }
}
