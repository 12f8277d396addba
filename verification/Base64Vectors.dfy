// The hand-written base64 of embedding vectors (section 4 of RFC 4648), and the vectors
// themselves as runs of 32-bit float patterns.
module Base64Vectors {
  import opened Wrappers
  import opened Bits

  const U32_MODULUS := 0x1_0000_0000

  type Word = w: int | 0 <= w < U32_MODULUS

  // The standard alphabet: upper case, lower case, digits, '+' and '/'.
  function Digit(v: int): char
    requires 0 <= v < 64
  {
    if v < 26 then (v + 'A' as int) as char
    else if v < 52 then (v - 26 + 'a' as int) as char
    else if v < 62 then (v - 52 + '0' as int) as char
    else if v == 62 then '+'
    else '/'
  }

  function Sextet(c: char): (v: Option<nat>)
    ensures v.Some? ==> v.value < 64
  {
    if 'A' <= c <= 'Z' then Some(c as int - 'A' as int)
    else if 'a' <= c <= 'z' then Some(c as int - 'a' as int + 26)
    else if '0' <= c <= '9' then Some(c as int - '0' as int + 52)
    else if c == '+' then Some(62)
    else if c == '/' then Some(63)
    else None
  }

  lemma SextetOfDigit(v: int)
    requires 0 <= v < 64
    ensures Sextet(Digit(v)) == Some(v) && !Skipped(Digit(v))
  {
  }

  // Padding and ASCII whitespace.
  predicate Skipped(c: char) {
    c == '=' || c == ' ' || c == '\t' || c == '\n' || c == '\r' || c == '\U{0C}'
  }

  // ---- What base64 is ---------------------------------------------------------

  // The sextets of a text, if every character that counts is one.
  function Sextets(text: string): (r: Option<seq<nat>>) {
    if text == [] then Some([])
    else
      var before :- Sextets(text[..|text| - 1]);
      var c := text[|text| - 1];
      if Skipped(c) then Some(before)
      else
        var v: nat :- Sextet(c);
        Some(before + [v])
  }

  // Six bits a character, eight bits a byte; bits short of a byte are dropped.
  function Decoded(text: string): Option<seq<nat>> {
    var sextets :- Sextets(text);
    Some(Groups(Spread(sextets, 6), 8))
  }

  function Zeros(n: nat): seq<Bit> {
    seq(n, _ => 0)
  }

  // What is missing to a multiple of `k`.
  function Missing(n: nat, k: nat): nat
    requires k > 0
  {
    (k - n % k) % k
  }

  // Zero bits up to a whole sextet.
  function Filled(bits: seq<Bit>): seq<Bit> {
    bits + Zeros(Missing(|bits|, 6))
  }

  function Chars(sextets: seq<nat>): string
    requires forall i :: 0 <= i < |sextets| ==> sextets[i] < 64
  {
    seq(|sextets|, i requires 0 <= i < |sextets| => Digit(sextets[i]))
  }

  function Padding(n: nat): string {
    seq(n, _ => '=')
  }

  // Padded to a multiple of four characters.
  function Printed(sextets: seq<nat>): string
    requires forall i :: 0 <= i < |sextets| ==> sextets[i] < 64
  {
    Chars(sextets) + Padding(Missing(|sextets|, 4))
  }

  function SextetsOf(bytes: seq<Byte>): (sextets: seq<nat>)
    ensures forall i :: 0 <= i < |sextets| ==> sextets[i] < 64
  {
    SextetsAreSmall(bytes);
    Groups(Filled(Spread(bytes, 8)), 6)
  }

  // The bytes' bits, six a character.
  function Encoded(bytes: seq<Byte>): string {
    Printed(SextetsOf(bytes))
  }

  lemma {:induction false} SpreadLength(numbers: seq<nat>, w: nat)
    requires w == 6 || w == 8
    ensures |Spread(numbers, w)| == w * |numbers|
  {
    if numbers != [] {
      SpreadLength(numbers[1..], w);
    }
  }

  lemma FilledLength(n: nat)
    ensures (n + Missing(n, 6)) % 6 == 0
  {
  }

  lemma SextetsAreSmall(bytes: seq<Byte>)
    ensures var bits := Filled(Spread(bytes, 8)); var sextets := Groups(bits, 6);
            && Spread(sextets, 6) == bits && |sextets| == |bits| / 6
            && forall i :: 0 <= i < |sextets| ==> sextets[i] < 64
  {
    assert Pow2(6) == 64;
    FilledLength(|Spread(bytes, 8)|);
    SpreadOfGroups(Filled(Spread(bytes, 8)), 6);
  }

  // ---- Round trip -------------------------------------------------------------

  lemma {:induction false} SextetsOfChars(sextets: seq<nat>, n: nat)
    requires forall i :: 0 <= i < |sextets| ==> sextets[i] < 64
    ensures Sextets(Chars(sextets) + Padding(n)) == Some(sextets)
    decreases |sextets| + n
  {
    var text := Chars(sextets) + Padding(n);
    if n > 0 {
      assert text[..|text| - 1] == Chars(sextets) + Padding(n - 1);
      SextetsOfChars(sextets, n - 1);
    } else if sextets != [] {
      var last := |sextets| - 1;
      assert text[..last] == Chars(sextets[..last]) + Padding(0);
      SextetsOfChars(sextets[..last], 0);
      SextetOfDigit(sextets[last]);
      assert sextets == sextets[..last] + [sextets[last]];
    } else {
      assert text == [];
    }
  }

  lemma BytesOfFilled(bytes: seq<Byte>)
    ensures Groups(Filled(Spread(bytes, 8)), 8) == bytes
  {
    assert Pow2(8) == 256;
    GroupsOfSpread(bytes, 8, Zeros(Missing(|Spread(bytes, 8)|, 6)));
  }

  // Decoding the encoder's output gives the bytes back.
  lemma DecodeEncode(bytes: seq<Byte>)
    ensures Decoded(Encoded(bytes)) == Some(bytes)
  {
    var sextets := SextetsOf(bytes);
    SextetsOfChars(sextets, Missing(|sextets|, 4));
    SextetsAreSmall(bytes);
    BytesOfFilled(bytes);
  }

  lemma MissingBits(q: nat, r: nat)
    requires r < 3
    ensures Missing(6 * (4 * q) + 8 * r, 6) == if r == 0 then 0 else if r == 1 then 4 else 2
  {
    Quotient(6, 4 * q + if r == 0 then 0 else r, if r == 0 then 0 else 2 * r);
  }

  lemma MissingCharacters(q: nat, s: nat)
    requires s < 4
    ensures Missing(4 * q + s, 4) == if s == 0 then 0 else 4 - s
  {
    assert (4 * q + s) % 4 == s;
  }

  lemma CharacterCount(n: nat, sextets: nat)
    requires sextets == (8 * n + Missing(8 * n, 6)) / 6
    ensures sextets + Missing(sextets, 4) == 4 * ((n + 2) / 3)
  {
    var (q, r) := (n / 3, n % 3);
    assert 8 * n == 6 * (4 * q) + 8 * r;
    MissingBits(q, r);
    assert sextets == 4 * q + if r == 0 then 0 else r + 1;
    MissingCharacters(q, if r == 0 then 0 else r + 1);
  }

  // Four characters for every three bytes begun.
  lemma EncodedLength(bytes: seq<Byte>)
    ensures |Encoded(bytes)| == 4 * ((|bytes| + 2) / 3)
  {
    SpreadLength(bytes, 8);
    SextetsAreSmall(bytes);
    CharacterCount(|bytes|, |SextetsOf(bytes)|);
  }

  // ---- The encoder ------------------------------------------------------------

  // Whole chunks of three bytes leave nothing to fill.
  lemma SextetsConcat(a: seq<Byte>, b: seq<Byte>)
    requires |a| % 3 == 0
    ensures SextetsOf(a + b) == SextetsOf(a) + SextetsOf(b) && |SextetsOf(a)| % 4 == 0
  {
    var (x, y) := (Spread(a, 8), Spread(b, 8));
    SpreadConcat(a, b, 8);
    SpreadLength(a, 8);
    ThreesAreSextets(|a|);
    FilledConcat(x, y);
    GroupsConcat(x, Filled(y), 6);
    SpreadOfGroups(x, 6);
  }

  lemma FilledConcat(x: seq<Bit>, y: seq<Bit>)
    requires |x| % 6 == 0
    ensures Filled(x) == x && Filled(x + y) == x + Filled(y)
  {
    assert |x + y| % 6 == |y| % 6;
  }

  lemma ThreesAreSextets(n: nat)
    requires n % 3 == 0
    ensures 8 * n % 6 == 0 && 8 * n / 6 % 4 == 0
  {
    assert 8 * n == 6 * (4 * (n / 3));
  }

  lemma EncodedConcat(a: seq<Byte>, b: seq<Byte>)
    requires |a| % 3 == 0
    ensures Encoded(a + b) == Encoded(a) + Encoded(b)
  {
    SextetsConcat(a, b);
    PrintedConcat(SextetsOf(a), SextetsOf(b));
  }

  lemma PrintedConcat(a: seq<nat>, b: seq<nat>)
    requires |a| % 4 == 0
    requires forall i :: 0 <= i < |a| ==> a[i] < 64
    requires forall i :: 0 <= i < |b| ==> b[i] < 64
    ensures Printed(a + b) == Printed(a) + Printed(b)
  {
    assert |a + b| % 4 == |b| % 4;
  }

  // The bytes of a chunk in one number, the missing ones zero.
  function Packed(c0: Byte, c1: Byte, c2: Byte): nat {
    c0 as int * 0x10000 + c1 as int * 0x100 + c2 as int
  }

  lemma Shifts(n: nat)
    ensures Shifted(n, 18) == n / 0x40000 && Shifted(n, 12) == n / 0x1000 && Shifted(n, 6) == n / 0x40
    ensures Shifted(n, 16) == n / 0x10000 && Shifted(n, 8) == n / 0x100
  {
    assert Pow2(18) == 0x40000 && Pow2(12) == 0x1000 && Pow2(6) == 0x40 && Pow2(16) == 0x10000 && Pow2(8) == 0x100;
    ShiftDivides(n, 18);
    ShiftDivides(n, 12);
    ShiftDivides(n, 6);
    ShiftDivides(n, 16);
    ShiftDivides(n, 8);
  }

  lemma LowByte(n: nat)
    ensures BitsOf(n % 256, 8) == BitsOf(n, 8)
  {
    assert Pow2(8) == 256;
    BitsOfRemainder(n, 8, 8);
  }

  lemma PackedParts(c0: Byte, c1: Byte, c2: Byte, p: nat)
    requires p == Packed(c0, c1, c2)
    ensures p / 0x10000 == c0 && p / 0x100 % 256 == c1 && p % 256 == c2
  {
    assert p / 0x100 == c0 as int * 0x100 + c1 as int;
  }

  lemma ThreeBytes(p: nat)
    ensures BitsOf(p, 24) == BitsOf(Shifted(p, 16), 8) + (BitsOf(Shifted(p, 8), 8) + BitsOf(p, 8))
  {
    BitsSplit(p, 8, 16);
    BitsSplit(p, 8, 8);
  }

  lemma PackedBits(c0: Byte, c1: Byte, c2: Byte, p: nat)
    requires p == Packed(c0, c1, c2)
    ensures BitsOf(p, 24) == BitsOf(c0, 8) + (BitsOf(c1, 8) + BitsOf(c2, 8))
  {
    ThreeBytes(p);
    Shifts(p);
    PackedParts(c0, c1, c2, p);
    LowByte(Shifted(p, 8));
    LowByte(p);
  }

  function FourSextets(p: nat): (sextets: seq<nat>)
    ensures |sextets| == 4 && forall i :: 0 <= i < 4 ==> sextets[i] < 64
  {
    [p / 0x40000 % 64, p / 0x1000 % 64, p / 0x40 % 64, p % 64]
  }

  lemma LowSextet(n: nat)
    ensures ValueOf(BitsOf(n, 6)) == n % 64
  {
    assert Pow2(6) == 64;
    LowValue(n, 6);
  }

  lemma SixBits(p: nat)
    ensures BitsOf(p, 24)
      == BitsOf(Shifted(p, 18), 6) + (BitsOf(Shifted(p, 12), 6) + (BitsOf(Shifted(p, 6), 6) + BitsOf(p, 6)))
  {
    BitsSplit(p, 6, 18);
    BitsSplit(p, 6, 12);
    BitsSplit(p, 6, 6);
  }

  lemma SextetsOfPacked(p: nat)
    ensures Groups(BitsOf(p, 24), 6) == FourSextets(p)
  {
    var (a, b, c) := (Shifted(p, 18), Shifted(p, 12), Shifted(p, 6));
    SixBits(p);
    FourGroups(BitsOf(a, 6), BitsOf(b, 6), BitsOf(c, 6), BitsOf(p, 6));
    LowSextet(a);
    LowSextet(b);
    LowSextet(c);
    LowSextet(p);
    Shifts(p);
  }

  lemma FourGroups(a: seq<Bit>, b: seq<Bit>, c: seq<Bit>, d: seq<Bit>)
    requires |a| == |b| == |c| == |d| == 6
    ensures Groups(a + (b + (c + d)), 6) == [ValueOf(a), ValueOf(b), ValueOf(c), ValueOf(d)]
  {
    GroupsOne(a, b + (c + d), 6);
    GroupsOne(b, c + d, 6);
    GroupsOne(c, d, 6);
    GroupsOne(d, [], 6);
    assert d + [] == d;
  }

  function PackedChunk(chunk: seq<Byte>): nat
    requires 1 <= |chunk| <= 3
  {
    Packed(chunk[0], if |chunk| > 1 then chunk[1] else 0, if |chunk| > 2 then chunk[2] else 0)
  }

  // Four characters, the last ones padding for a chunk of `n` bytes.
  function QuadOf(sextets: seq<nat>, n: nat): string
    requires |sextets| == 4 && 1 <= n <= 3 && forall i :: 0 <= i < 4 ==> sextets[i] < 64
  {
    [Digit(sextets[0]), Digit(sextets[1]),
     if n > 1 then Digit(sextets[2]) else '=',
     if n > 2 then Digit(sextets[3]) else '=']
  }

  lemma QuadIsPrinted(sextets: seq<nat>, n: nat)
    requires |sextets| == 4 && 1 <= n <= 3 && forall i :: 0 <= i < 4 ==> sextets[i] < 64
    ensures Printed(sextets[..n + 1]) == QuadOf(sextets, n)
  {
    assert Missing(n + 1, 4) == 3 - n;
    assert Chars(sextets[..n + 1]) == QuadOf(sextets, n)[..n + 1];
    assert Padding(3 - n) == QuadOf(sextets, n)[n + 1..];
  }

  lemma GroupsTake(bits: seq<Bit>, k: nat)
    requires |bits| == 24 && 6 * k <= 24
    ensures |Groups(bits, 6)| == 4 && Groups(bits[..6 * k], 6) == Groups(bits, 6)[..k]
  {
    var (a, b) := (bits[..6 * k], bits[6 * k..]);
    assert bits == a + b;
    assert |a| % 6 == 0 && |a| / 6 == k;
    GroupsConcat(a, b, 6);
    SpreadOfGroups(a, 6);
    SpreadOfGroups(bits, 6);
  }

  lemma SpreadTwo(a: nat, b: nat, w: nat)
    ensures Spread([a, b], w) == BitsOf(a, w) + BitsOf(b, w)
  {
    SpreadFirst([b], w);
    SpreadFirst([a, b], w);
    assert [b][1..] == [] && [a, b][1..] == [b];
  }

  lemma SpreadThree(a: nat, b: nat, c: nat, w: nat)
    ensures Spread([a, b, c], w) == BitsOf(a, w) + (BitsOf(b, w) + BitsOf(c, w))
  {
    SpreadTwo(b, c, w);
    SpreadFirst([a, b, c], w);
    assert [a, b, c][1..] == [b, c];
  }

  lemma SpreadFirst(numbers: seq<nat>, w: nat)
    requires numbers != []
    ensures Spread(numbers, w) == BitsOf(numbers[0], w) + Spread(numbers[1..], w)
  {
  }

  // Two bytes are 16 bits and lack two to whole sextets, one byte lacks four.
  lemma FillTwo(x: seq<Bit>, y: seq<Bit>, z: seq<Bit>)
    requires |x| == |y| == 8 && z == Zeros(8)
    ensures Filled(x) == (x + (z + z))[..12] && Filled(x + y) == (x + (y + z))[..18]
  {
    assert Missing(8, 6) == 4 && Missing(16, 6) == 2;
    assert Filled(x) == x + Zeros(4) && Filled(x + y) == x + y + Zeros(2);
  }

  lemma FillThree(x: seq<Bit>)
    requires |x| == 24
    ensures Filled(x) == x[..24]
  {
    assert Missing(24, 6) == 0;
  }

  lemma OneByteBits(chunk: seq<Byte>, p: nat)
    requires |chunk| == 1 && p == Packed(chunk[0], 0, 0)
    ensures Filled(Spread(chunk, 8)) == BitsOf(p, 24)[..12]
  {
    PackedBits(chunk[0], 0, 0, p);
    SpreadFirst(chunk, 8);
    assert chunk[1..] == [];
    ZeroBits(8);
    FillTwo(BitsOf(chunk[0], 8), BitsOf(0, 8), BitsOf(0, 8));
  }

  lemma TwoByteBits(chunk: seq<Byte>, p: nat)
    requires |chunk| == 2 && p == Packed(chunk[0], chunk[1], 0)
    ensures Filled(Spread(chunk, 8)) == BitsOf(p, 24)[..18]
  {
    PackedBits(chunk[0], chunk[1], 0, p);
    assert chunk == [chunk[0], chunk[1]];
    SpreadTwo(chunk[0], chunk[1], 8);
    ZeroBits(8);
    FillTwo(BitsOf(chunk[0], 8), BitsOf(chunk[1], 8), BitsOf(0, 8));
  }

  lemma ThreeByteBits(chunk: seq<Byte>, p: nat)
    requires |chunk| == 3 && p == Packed(chunk[0], chunk[1], chunk[2])
    ensures Filled(Spread(chunk, 8)) == BitsOf(p, 24)[..24]
  {
    PackedBits(chunk[0], chunk[1], chunk[2], p);
    assert chunk == [chunk[0], chunk[1], chunk[2]];
    SpreadThree(chunk[0], chunk[1], chunk[2], 8);
    FillThree(Spread(chunk, 8));
  }

  lemma {:induction false} ZeroBits(w: nat)
    ensures BitsOf(0, w) == Zeros(w)
  {
    if w > 0 {
      ZeroBits(w - 1);
    }
  }

  lemma ChunkBits(chunk: seq<Byte>, p: nat)
    requires 1 <= |chunk| <= 3 && p == PackedChunk(chunk)
    ensures Filled(Spread(chunk, 8)) == BitsOf(p, 24)[..6 * (|chunk| + 1)]
  {
    if |chunk| == 1 {
      OneByteBits(chunk, p);
    } else if |chunk| == 2 {
      TwoByteBits(chunk, p);
    } else {
      ThreeByteBits(chunk, p);
    }
  }

  lemma QuadIsEncoded(chunk: seq<Byte>, packed: nat)
    requires 1 <= |chunk| <= 3 && packed == PackedChunk(chunk)
    ensures Encoded(chunk) == QuadOf(FourSextets(packed), |chunk|)
  {
    ChunkBits(chunk, packed);
    GroupsTake(BitsOf(packed, 24), |chunk| + 1);
    SextetsOfPacked(packed);
    QuadIsPrinted(FourSextets(packed), |chunk|);
  }

  // ---- The vector's bytes -----------------------------------------------------

  // A float's bit pattern, least significant byte first.
  function WordBytes(w: Word): seq<Byte> {
    [w % 256, w / 0x100 % 256, w / 0x10000 % 256, w / 0x1000000]
  }

  function VectorBytes(vector: seq<Word>): seq<Byte> {
    if vector == [] then [] else VectorBytes(vector[..|vector| - 1]) + WordBytes(vector[|vector| - 1])
  }

  function WordOf(b0: Byte, b1: Byte, b2: Byte, b3: Byte): Word {
    b0 as int + b1 as int * 0x100 + b2 as int * 0x10000 + b3 as int * 0x1000000
  }

  function FloatsFromBytes(bytes: seq<Byte>): Option<seq<Word>> {
    if |bytes| % 4 != 0 then None else Some(Words(bytes))
  }

  function Words(bytes: seq<Byte>): seq<Word>
    requires |bytes| % 4 == 0
    decreases |bytes|
  {
    if bytes == [] then []
    else
      var n := |bytes| - 4;
      Words(bytes[..n]) + [WordOf(bytes[n], bytes[n + 1], bytes[n + 2], bytes[n + 3])]
  }

  lemma WordRoundTrip(w: Word, b: seq<Byte>)
    requires b == WordBytes(w)
    ensures |b| == 4 && WordOf(b[0], b[1], b[2], b[3]) == w
  {
    assert w == w % 256 + 0x100 * (w / 0x100);
    assert w / 0x100 == w / 0x100 % 256 + 0x100 * (w / 0x10000);
    assert w / 0x10000 == w / 0x10000 % 256 + 0x100 * (w / 0x1000000);
  }

  lemma WordsAppend(bytes: seq<Byte>, b: seq<Byte>)
    requires |bytes| % 4 == 0 && |b| == 4
    ensures |bytes + b| % 4 == 0 && Words(bytes + b) == Words(bytes) + [WordOf(b[0], b[1], b[2], b[3])]
  {
    assert (bytes + b)[..|bytes|] == bytes;
  }

  lemma {:induction false} VectorRoundTrip(vector: seq<Word>, bytes: seq<Byte>)
    requires bytes == VectorBytes(vector)
    ensures |bytes| % 4 == 0 && Words(bytes) == vector
  {
    if vector != [] {
      var (init, last) := (vector[..|vector| - 1], vector[|vector| - 1]);
      VectorRoundTrip(init, VectorBytes(init));
      WordRoundTrip(last, WordBytes(last));
      WordsAppend(VectorBytes(init), WordBytes(last));
      assert vector == init + [last];
    }
  }

  // Every vector survives being encoded, decoded and read back, bit for bit.
  lemma VectorSurvives(vector: seq<Word>)
    ensures Decoded(Encoded(VectorBytes(vector))) == Some(VectorBytes(vector))
    ensures FloatsFromBytes(VectorBytes(vector)) == Some(vector)
  {
    DecodeEncode(VectorBytes(vector));
    VectorRoundTrip(vector, VectorBytes(vector));
  }

  // ---- The loops --------------------------------------------------------------

  method Encode(vector: seq<Word>) returns (encoded: string)
    ensures encoded == Encoded(VectorBytes(vector))
  {
    var bytes: seq<Byte> := [];
    for i := 0 to |vector|
      invariant bytes == VectorBytes(vector[..i])
    {
      assert vector[..i + 1][..i] == vector[..i];
      bytes := bytes + WordBytes(vector[i]);
    }
    assert vector[..|vector|] == vector;
    encoded := EncodeBytes(bytes);
  }

  // Up to three bytes in one number, taken apart by shifts.
  method EncodeChunk(bytes: seq<Byte>, i: nat) returns (quad: string, next: nat)
    requires i < |bytes| && i % 3 == 0
    ensures next == if i + 3 < |bytes| then i + 3 else |bytes|
    ensures Encoded(bytes[..next]) == Encoded(bytes[..i]) + quad
  {
    next := if i + 3 < |bytes| then i + 3 else |bytes|;
    var chunk := bytes[i..next];
    var packed := PackedChunk(chunk);
    quad := QuadOf(FourSextets(packed), |chunk|);
    QuadIsEncoded(chunk, packed);
    EncodedNext(bytes, i, chunk);
  }

  lemma EncodedNext(bytes: seq<Byte>, i: nat, chunk: seq<Byte>)
    requires i % 3 == 0 && i + |chunk| <= |bytes| && chunk == bytes[i..i + |chunk|]
    ensures Encoded(bytes[..i + |chunk|]) == Encoded(bytes[..i]) + Encoded(chunk)
  {
    EncodedConcat(bytes[..i], chunk);
    assert bytes[..i] + chunk == bytes[..i + |chunk|];
  }

  method EncodeBytes(bytes: seq<Byte>) returns (encoded: string)
    ensures encoded == Encoded(bytes)
  {
    encoded := "";
    var i := 0;
    NothingEncoded();
    while i < |bytes|
      invariant 0 <= i <= |bytes| && (i % 3 == 0 || i == |bytes|)
      invariant encoded == Encoded(bytes[..i])
    {
      var quad, next := EncodeChunk(bytes, i);
      encoded, i := encoded + quad, next;
    }
    assert bytes[..|bytes|] == bytes;
  }

  lemma NothingEncoded()
    ensures Encoded([]) == ""
  {
  }

  lemma ShiftedIn(packed: nat, v: nat)
    requires v < 64
    ensures packed * 64 % U32_MODULUS + v == (packed * 64 + v) % U32_MODULUS
  {
    var (q, r) := (packed / 0x400_0000, packed % 0x400_0000);
    assert packed * 64 == U32_MODULUS * q + 64 * r;
  }

  // Shifting a sextet into 32 bits that hold fewer than 8 pending ones loses none.
  lemma PushSextet(packed: nat, bits: nat, v: nat, next: nat)
    requires bits < 8 && v < 64 && next == packed * 64 % U32_MODULUS + v
    ensures BitsOf(next, bits + 6) == BitsOf(packed, bits) + BitsOf(v, 6)
  {
    ShiftedIn(packed, v);
    PushWhole(packed * 64 + v, packed, bits, v);
  }

  lemma PowerOf32()
    ensures Pow2(32) == U32_MODULUS
  {
    assert Pow2(8) == 256;
    assert Pow2(16) == 0x10000;
    assert Pow2(24) == 0x1000000;
  }

  lemma PushWhole(whole: nat, packed: nat, bits: nat, v: nat)
    requires bits < 8 && v < 64 && whole == packed * 64 + v
    ensures BitsOf(whole % U32_MODULUS, bits + 6) == BitsOf(packed, bits) + BitsOf(v, 6)
  {
    PowerOf32();
    BitsOfRemainder(whole, 32, bits + 6);
    AppendSextet(whole, packed, bits, v);
  }

  lemma AppendSextet(whole: nat, packed: nat, bits: nat, v: nat)
    requires v < 64 && whole == packed * 64 + v
    ensures BitsOf(whole, bits + 6) == BitsOf(packed, bits) + BitsOf(v, 6)
  {
    assert Pow2(6) == 64;
    BitsSplit(whole, bits, 6);
    ShiftDivides(whole, 6);
    BitsOfRemainder(whole, 6, 6);
    SextetOff(packed, v);
  }

  lemma SextetOff(packed: nat, v: nat)
    requires v < 64
    ensures (packed * 64 + v) / 64 == packed && (packed * 64 + v) % 64 == v
  {
  }

  lemma SpreadOne(numbers: seq<nat>, n: nat, w: nat)
    ensures Spread(numbers + [n], w) == Spread(numbers, w) + BitsOf(n, w)
  {
    SpreadConcat(numbers, [n], w);
    assert [n][1..] == [];
    assert Spread([n], w) == BitsOf(n, w);
  }

  lemma SextetTaken(sextets: seq<nat>, bytes: seq<Byte>, packed: nat, bits: nat, v: nat, next: nat)
    requires bits < 8 && v < 64 && next == packed * 64 % U32_MODULUS + v
    requires Spread(sextets, 6) == Spread(bytes, 8) + BitsOf(packed, bits)
    ensures Spread(sextets + [v], 6) == Spread(bytes, 8) + BitsOf(next, bits + 6)
  {
    SpreadOne(sextets, v, 6);
    PushSextet(packed, bits, v, next);
    Associate(Spread(bytes, 8), BitsOf(packed, bits), BitsOf(v, 6));
  }

  lemma ByteTaken(bytes: seq<Byte>, packed: nat, bits: nat)
    ensures Spread(bytes, 8) + BitsOf(packed, bits + 8)
      == Spread(bytes + [Shifted(packed, bits) % 256], 8) + BitsOf(packed, bits)
  {
    BitsSplit(packed, 8, bits);
    LowByte(Shifted(packed, bits));
    SpreadOne(bytes, Shifted(packed, bits) % 256, 8);
    Associate(Spread(bytes, 8), BitsOf(Shifted(packed, bits), 8), BitsOf(packed, bits));
  }

  // A character that is neither a digit of the alphabet nor padding nor ASCII whitespace.
  ghost predicate Foreign(c: char) {
    c as int !in [9, 10, 12, 13, 32, 61] && forall v :: 0 <= v < 64 ==> Digit(v) != c
  }

  lemma ForeignIsRefused(c: char)
    ensures !Skipped(c) && Sextet(c).None? <==> Foreign(c)
  {
    if Sextet(c).Some? {
      assert Digit(Sextet(c).value) == c;
    }
    forall v | 0 <= v < 64 && Digit(v) == c ensures Sextet(c) == Some(v) {
      SextetOfDigit(v);
    }
  }

  // A text decodes unless some character is foreign.
  lemma {:induction false} DecodesUnlessForeign(text: string)
    ensures Decoded(text).None? <==> exists i :: 0 <= i < |text| && Foreign(text[i])
  {
    if text != [] {
      var init := text[..|text| - 1];
      DecodesUnlessForeign(init);
      ForeignIsRefused(text[|text| - 1]);
      assert forall i :: 0 <= i < |init| ==> init[i] == text[i];
    }
  }

  // The bytes so far and the pending bits are all the bits so far.
  ghost predicate Pending(sextets: seq<nat>, bytes: seq<Byte>, packed: nat, bits: nat) {
    bits < 8 && Spread(sextets, 6) == Spread(bytes, 8) + BitsOf(packed, bits)
  }

  lemma Taken(sextets: seq<nat>, bytes: seq<Byte>, packed: nat, bits: nat, v: nat, next: nat)
    requires Pending(sextets, bytes, packed, bits) && v < 64 && next == packed * 64 % U32_MODULUS + v
    ensures bits + 6 < 8 ==> Pending(sextets + [v], bytes, next, bits + 6)
    ensures bits + 6 >= 8 ==> Pending(sextets + [v], bytes + [Shifted(next, bits - 2) % 256], next, bits - 2)
  {
    SextetTaken(sextets, bytes, packed, bits, v, next);
    if bits + 6 >= 8 {
      ByteTaken(bytes, next, bits - 2);
    }
  }

  lemma PendingDecodes(sextets: seq<nat>, bytes: seq<Byte>, packed: nat, bits: nat)
    requires Pending(sextets, bytes, packed, bits)
    ensures Groups(Spread(sextets, 6), 8) == bytes
  {
    assert Pow2(8) == 256;
    GroupsOfSpread(bytes, 8, BitsOf(packed, bits));
  }

  lemma NothingPending()
    ensures Pending([], [], 0, 0)
  {
  }

  lemma {:induction false} SextetsOfPrefix(text: string, k: nat)
    requires k <= |text| && Sextets(text[..k]).None?
    ensures Sextets(text).None?
    decreases |text|
  {
    if k == |text| {
      assert text[..k] == text;
    } else {
      assert text[..|text| - 1][..k] == text[..k];
      SextetsOfPrefix(text[..|text| - 1], k);
    }
  }

  lemma OneMoreCharacter(text: string, i: nat, sextets: seq<nat>)
    requires i < |text| && Sextets(text[..i]) == Some(sextets)
    ensures Sextets(text[..i + 1]) ==
      if Skipped(text[i]) then Some(sextets)
      else if Sextet(text[i]).None? then None else Some(sextets + [Sextet(text[i]).value])
  {
    assert text[..i + 1][..i] == text[..i];
  }

  method Decode(text: string) returns (decoded: Option<seq<Byte>>)
    ensures decoded == Decoded(text)
  {
    var bytes: seq<Byte> := [];
    var packed: nat, bits: nat := 0, 0;
    ghost var sextets: seq<nat> := [];
    NothingPending();
    for i := 0 to |text|
      invariant Sextets(text[..i]) == Some(sextets)
      invariant Pending(sextets, bytes, packed, bits)
    {
      OneMoreCharacter(text, i, sextets);
      if Skipped(text[i]) {
        continue;
      }
      var v := Sextet(text[i]);
      if v.None? {
        SextetsOfPrefix(text, i + 1);
        return None;
      }
      var next := packed * 64 % U32_MODULUS + v.value;
      Taken(sextets, bytes, packed, bits, v.value, next);
      packed, bits, sextets := next, bits + 6, sextets + [v.value];
      if bits >= 8 {
        bits := bits - 8;
        bytes := bytes + [Shifted(packed, bits) % 256];
      }
    }
    assert text[..|text|] == text;
    PendingDecodes(sextets, bytes, packed, bits);
    return Some(bytes);
  }
}
