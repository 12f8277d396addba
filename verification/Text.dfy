// The string operations the gateway leans on, and decimal numbers.
module Text {
  import opened Wrappers

  const I64_LIMIT := 0x8000_0000_0000_0000

  // ---- Splitting and trimming -------------------------------------------------

  // Position of the first `c`, or the length.
  function Find(s: string, c: char): (i: nat)
    ensures i <= |s|
  {
    if s == [] || s[0] == c then 0 else 1 + Find(s[1..], c)
  }

  function SplitOnce(s: string, c: char): Option<(string, string)> {
    var i := Find(s, c);
    if i < |s| then Some((s[..i], s[i + 1..])) else None
  }

  function Split(s: string, c: char): (parts: seq<string>)
    ensures |parts| > 0
    decreases |s|
  {
    var i := Find(s, c);
    if i < |s| then [s[..i]] + Split(s[i + 1..], c) else [s]
  }

  // Position of the last `c`, or -1.
  function FindLast(s: string, c: char): (i: int)
    ensures -1 <= i < |s|
  {
    if s == [] then -1 else if s[|s| - 1] == c then |s| - 1 else FindLast(s[..|s| - 1], c)
  }

  function RSplitOnce(s: string, c: char): Option<(string, string)> {
    var i := FindLast(s, c);
    if i >= 0 then Some((s[..i], s[i + 1..])) else None
  }

  function TrimEnd(s: string, drop: char -> bool): string {
    if s != [] && drop(s[|s| - 1]) then TrimEnd(s[..|s| - 1], drop) else s
  }

  function TrimStart(s: string, drop: char -> bool): string {
    if s != [] && drop(s[0]) then TrimStart(s[1..], drop) else s
  }

  // Unicode White_Space, which is what trimming a string drops.
  predicate IsWhitespace(c: char) {
    || '\t' <= c <= '\r' || c == ' ' || c == '\U{85}' || c == '\U{A0}' || c == '\U{1680}'
    || '\U{2000}' <= c <= '\U{200A}' || c == '\U{2028}' || c == '\U{2029}' || c == '\U{202F}'
    || c == '\U{205F}' || c == '\U{3000}'
  }

  function Trim(s: string): string {
    TrimStart(TrimEnd(s, IsWhitespace), IsWhitespace)
  }

  predicate IsTrimmed(s: string) {
    s == [] || (!IsWhitespace(s[0]) && !IsWhitespace(s[|s| - 1]))
  }

  lemma Regroup<T>(a: seq<T>, b: seq<T>, c: seq<T>)
    ensures a + b + c == a + (b + c)
  {
  }

  lemma TrimKeepsTrimmed(s: string)
    requires IsTrimmed(s)
    ensures Trim(s) == s
  {
  }

  lemma {:induction false} TrimEndEdge(s: string, drop: char -> bool)
    ensures var r := TrimEnd(s, drop); r <= s && (r != [] ==> !drop(r[|r| - 1]))
    ensures forall k :: |TrimEnd(s, drop)| <= k < |s| ==> drop(s[k])
  {
    if s != [] && drop(s[|s| - 1]) {
      TrimEndEdge(s[..|s| - 1], drop);
    }
  }

  lemma {:induction false} TrimStartEdge(s: string, drop: char -> bool)
    ensures var r := TrimStart(s, drop);
            |r| <= |s| && r == s[|s| - |r|..] && (r != [] ==> !drop(r[0]))
    ensures forall k :: 0 <= k < |s| - |TrimStart(s, drop)| ==> drop(s[k])
  {
    if s != [] && drop(s[0]) {
      TrimStartEdge(s[1..], drop);
      assert forall k :: 1 <= k < |s| ==> s[k] == s[1..][k - 1];
    }
  }

  // The 25 characters with the Unicode property White_Space.
  predicate IsSpace(code: int) {
    || 9 <= code <= 13 || 8192 <= code <= 8202
    || code in [32, 133, 160, 5760, 8232, 8233, 8239, 8287, 12288]
  }

  // `inner` is `s` without the spaces at both of its ends.
  ghost predicate StripsTo(s: string, inner: string) {
    && (inner != [] ==> !IsSpace(inner[0] as int) && !IsSpace(inner[|inner| - 1] as int))
    && exists i, j :: 0 <= i <= j <= |s| && s[i..j] == inner
         && forall k :: 0 <= k < i || j <= k < |s| ==> IsSpace(s[k] as int)
  }

  // Trimming drops the spaces at both ends and nothing else.
  lemma TrimTrims(s: string)
    ensures IsTrimmed(Trim(s)) && StripsTo(s, Trim(s))
  {
    var t := TrimEnd(s, IsWhitespace);
    var r := Trim(s);
    TrimEndEdge(s, IsWhitespace);
    TrimStartEdge(t, IsWhitespace);
    assert s[|t| - |r|..|t|] == r;
  }

  lemma {:induction false} FindUnique(s: string, c: char, k: nat)
    requires k < |s| && s[k] == c && forall j :: 0 <= j < k ==> s[j] != c
    ensures Find(s, c) == k
  {
    if k > 0 {
      FindUnique(s[1..], c, k - 1);
    }
  }

  lemma FindAt(a: string, c: char, b: string)
    requires c !in a
    ensures Find(a + [c] + b, c) == |a|
  {
    assert forall j :: 0 <= j < |a| ==> a[j] != c;
    FindUnique(a + [c] + b, c, |a|);
  }

  lemma SplitOnceAt(a: string, c: char, b: string)
    requires c !in a
    ensures SplitOnce(a + [c] + b, c) == Some((a, b))
  {
    FindAt(a, c, b);
    assert (a + [c] + b)[..|a|] == a && (a + [c] + b)[|a| + 1..] == b;
  }

  lemma SplitAt(a: string, c: char, b: string)
    requires c !in a
    ensures Split(a + [c] + b, c) == [a] + Split(b, c)
  {
    FindAt(a, c, b);
    assert (a + [c] + b)[..|a|] == a && (a + [c] + b)[|a| + 1..] == b;
  }

  lemma {:induction false} FindFirst(s: string, c: char)
    requires c in s
    ensures Find(s, c) < |s| && s[Find(s, c)] == c && c !in s[..Find(s, c)]
  {
    if s[0] != c {
      FindFirst(s[1..], c);
      assert s[..Find(s, c)] == [s[0]] + s[1..][..Find(s[1..], c)];
    }
  }

  lemma {:induction false} FindNone(a: string, c: char)
    requires c !in a
    ensures Find(a, c) == |a|
  {
    if a != [] {
      FindNone(a[1..], c);
    }
  }

  lemma SplitNone(a: string, c: char)
    requires c !in a
    ensures Split(a, c) == [a]
  {
    FindNone(a, c);
  }

  lemma SplitThree(a: string, b: string, d: string, c: char)
    requires c !in a && c !in b && c !in d
    ensures Split(a + [c] + (b + [c] + d), c) == [a, b, d]
  {
    SplitAt(a, c, b + [c] + d);
    SplitAt(b, c, d);
    SplitNone(d, c);
  }

  lemma {:induction false} FindLastNone(s: string, c: char)
    requires c !in s
    ensures FindLast(s, c) == -1
  {
    if s != [] {
      FindLastNone(s[..|s| - 1], c);
    }
  }

  lemma {:induction false} FindLastAt(a: string, c: char, b: string)
    requires c !in b
    ensures FindLast(a + [c] + b, c) == |a|
    decreases |b|
  {
    var s := a + [c] + b;
    if b != [] {
      assert s[..|s| - 1] == a + [c] + b[..|b| - 1];
      FindLastAt(a, c, b[..|b| - 1]);
    }
  }

  // ---- Order ------------------------------------------------------------------

  // Byte order of UTF-8 is the order of the characters' code points.
  predicate Less(a: string, b: string) {
    b != [] && (a == [] || a[0] < b[0] || (a[0] == b[0] && Less(a[1..], b[1..])))
  }

  lemma {:induction false} LessTotal(a: string, b: string)
    ensures a == b || Less(a, b) || Less(b, a)
    ensures !(Less(a, b) && Less(b, a)) && !Less(a, a)
  {
    if a != [] && b != [] && a[0] == b[0] {
      LessTotal(a[1..], b[1..]);
      assert a == [a[0]] + a[1..] && b == [b[0]] + b[1..];
    }
    LessIrreflexive(a);
  }

  lemma {:induction false} LessIrreflexive(a: string)
    ensures !Less(a, a)
  {
    if a != [] {
      LessIrreflexive(a[1..]);
    }
  }

  lemma {:induction false} LessTransitive(a: string, b: string, c: string)
    requires Less(a, b) && Less(b, c)
    ensures Less(a, c)
  {
    if a != [] && a[0] == b[0] && b[0] == c[0] {
      LessTransitive(a[1..], b[1..], c[1..]);
    }
  }

  // ---- Decimal numbers --------------------------------------------------------

  predicate IsDigit(c: char) {
    '0' <= c <= '9'
  }

  predicate AllDigits(s: string) {
    forall i :: 0 <= i < |s| ==> IsDigit(s[i])
  }

  function DigitValue(c: char): nat
    requires IsDigit(c)
  {
    c as int - '0' as int
  }

  function DigitChar(d: nat): (c: char)
    requires d < 10
    ensures IsDigit(c) && DigitValue(c) == d
  {
    (d + '0' as int) as char
  }

  function Decimal(n: nat): (s: string)
    ensures s != [] && AllDigits(s)
  {
    if n < 10 then [DigitChar(n)] else Decimal(n / 10) + [DigitChar(n % 10)]
  }

  // A number in at least `width` characters, zeros after the sign.
  function Padded(n: int, width: nat): string {
    if n >= 0 then Zeros(width - |Decimal(n)|) + Decimal(n)
    else "-" + Zeros(width - 1 - |Decimal(-n)|) + Decimal(-n)
  }

  function Zeros(n: int): (s: string)
    ensures AllDigits(s)
  {
    if n <= 0 then [] else ['0'] + Zeros(n - 1)
  }

  // The value of a run of digits.
  function Value(s: string): nat
    requires AllDigits(s)
  {
    if s == [] then 0 else 10 * Value(s[..|s| - 1]) + DigitValue(s[|s| - 1])
  }

  function ParseDigits(s: string): Option<nat> {
    if s != [] && AllDigits(s) then Some(Value(s)) else None
  }

  // Parsing a signed 64-bit integer: an optional sign, digits, and in range.
  function ParseI64(s: string): Option<int> {
    var negative := s != [] && s[0] == '-';
    var digits := if s != [] && (s[0] == '-' || s[0] == '+') then s[1..] else s;
    var magnitude: int :- ParseDigits(digits);
    var n := if negative then -magnitude else magnitude;
    if -I64_LIMIT <= n < I64_LIMIT then Some(n) else None
  }

  lemma {:induction false} ValueOfDecimal(n: nat)
    ensures Value(Decimal(n)) == n
  {
    if n < 10 {
      assert Decimal(n)[..0] == [];
    } else {
      ValueOfDecimal(n / 10);
      var s := Decimal(n);
      assert s[..|s| - 1] == Decimal(n / 10);
    }
  }

  lemma {:induction false} ValueIgnoresZeros(k: int, s: string)
    requires AllDigits(s)
    ensures AllDigits(Zeros(k) + s) && Value(Zeros(k) + s) == Value(s)
    decreases |s|
  {
    var padded := Zeros(k) + s;
    if s == [] {
      assert padded == Zeros(k);
      ValueOfZeros(k);
    } else {
      ValueIgnoresZeros(k, s[..|s| - 1]);
      assert padded[..|padded| - 1] == Zeros(k) + s[..|s| - 1];
    }
  }

  lemma {:induction false} ValueOfZeros(k: int)
    ensures Value(Zeros(k)) == 0
  {
    if k > 0 {
      ValueOfZeros(k - 1);
      ZerosLast(k);
    }
  }

  lemma {:induction false} ZerosLast(k: int)
    requires k > 0
    ensures Zeros(k) == Zeros(k - 1) + ['0']
  {
    if k > 1 {
      ZerosLast(k - 1);
    }
  }

  lemma PaddedDigits(n: nat, width: nat)
    ensures AllDigits(Padded(n, width)) && Padded(n, width) != []
  {
  }

  lemma ParseOfDigits(s: string)
    requires AllDigits(s) && s != [] && Value(s) < I64_LIMIT
    ensures ParseI64(s) == Some(Value(s))
  {
    assert IsDigit(s[0]);
  }

  lemma ParseZeros(k: int, digits: string, n: nat)
    requires AllDigits(digits) && digits != [] && Value(digits) == n < I64_LIMIT
    ensures ParseI64(Zeros(k) + digits) == Some(n)
  {
    ValueIgnoresZeros(k, digits);
    ParseOfDigits(Zeros(k) + digits);
  }

  // Reading back a printed number.
  // An integer is digits, behind a sign or not, within 64 bits; nothing else is one.
  lemma IntegersRead(digits: string)
    requires digits != [] && AllDigits(digits)
    ensures ParseI64(digits) == ParseI64("+" + digits)
         == if Value(digits) <= 0x7FFF_FFFF_FFFF_FFFF then Some(Value(digits)) else None
    ensures var n: int := Value(digits); ParseI64("-" + digits) == if n <= 0x8000_0000_0000_0000 then Some(-n) else None
  {
    assert IsDigit(digits[0]);
    assert ("+" + digits)[1..] == digits && ("-" + digits)[1..] == digits;
  }

  lemma OthersDoNot(s: string)
    requires s == [] || (!AllDigits(s) && (s[0] in "+-" ==> s[1..] == [] || !AllDigits(s[1..])))
    ensures ParseI64(s) == None
  {
  }

  lemma {:induction false} ZerosLength(k: int)
    ensures |Zeros(k)| == if k > 0 then k else 0
  {
    if k > 0 {
      ZerosLength(k - 1);
    }
  }

  lemma PaddedLength(n: nat, width: nat)
    ensures |Padded(n, width)| == if |Decimal(n)| > width then |Decimal(n)| else width
  {
    ZerosLength(width - |Decimal(n)|);
  }

  lemma ParsePadded(n: nat, width: nat)
    requires n < I64_LIMIT
    ensures ParseI64(Padded(n, width)) == Some(n)
  {
    var digits := Decimal(n);
    ValueOfDecimal(n);
    ParseZeros(width - |digits|, digits, n);
    assert Padded(n, width) == Zeros(width - |digits|) + digits;
  }

  // Distinct numbers print differently.
  lemma DecimalInjective(m: nat, n: nat)
    requires Decimal(m) == Decimal(n)
    ensures m == n
  {
    ValueOfDecimal(m);
    ValueOfDecimal(n);
  }

  lemma DigitsAvoid(s: string, c: char)
    requires AllDigits(s) && !IsDigit(c)
    ensures c !in s
  {
  }
}
