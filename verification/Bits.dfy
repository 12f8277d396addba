// Numbers as runs of bits, most significant first.
module Bits {
  type Bit = b: int | 0 <= b < 2
  type Byte = b: int | 0 <= b < 256

  function Pow2(k: nat): (p: nat)
    ensures p >= 1
  {
    if k == 0 then 1 else 2 * Pow2(k - 1)
  }

  // Dropping the low `k` bits.
  function Shifted(n: nat, k: nat): nat {
    if k == 0 then n else Shifted(n / 2, k - 1)
  }

  // The low `w` bits of a number.
  function BitsOf(n: nat, w: nat): (bits: seq<Bit>)
    ensures |bits| == w
  {
    if w == 0 then [] else BitsOf(n / 2, w - 1) + [n % 2]
  }

  function ValueOf(bits: seq<Bit>): (n: nat)
    ensures n < Pow2(|bits|)
  {
    if bits == [] then 0 else 2 * ValueOf(bits[..|bits| - 1]) + bits[|bits| - 1]
  }

  // Whole groups of `w` bits, as numbers; what is left over is dropped.
  function Groups(bits: seq<Bit>, w: nat): seq<nat>
    requires w > 0
    decreases |bits|
  {
    if |bits| < w then [] else [ValueOf(bits[..w])] + Groups(bits[w..], w)
  }

  // The bits of numbers of one width, one after the other.
  function Spread(numbers: seq<nat>, w: nat): seq<Bit> {
    if numbers == [] then [] else BitsOf(numbers[0], w) + Spread(numbers[1..], w)
  }

  lemma {:induction false} ValueOfBits(n: nat, w: nat)
    requires n < Pow2(w)
    ensures ValueOf(BitsOf(n, w)) == n
  {
    if w > 0 {
      ValueOfBits(n / 2, w - 1);
      assert BitsOf(n, w)[..w - 1] == BitsOf(n / 2, w - 1);
    }
  }

  lemma {:induction false} BitsOfValue(bits: seq<Bit>)
    ensures BitsOf(ValueOf(bits), |bits|) == bits
  {
    if bits != [] {
      BitsOfValue(bits[..|bits| - 1]);
      assert bits == bits[..|bits| - 1] + [bits[|bits| - 1]];
    }
  }

  lemma Rebuilt(n: nat, h: nat, p: nat, q: nat, r: nat, d: nat)
    requires d == 2 * p && h == p * q + r && n == 2 * h + n % 2
    ensures n == d * q + (2 * r + n % 2)
  {
    assert d * q == 2 * (p * q);
  }

  lemma Divided(h: nat, p: nat)
    requires p > 0
    ensures h == p * (h / p) + h % p
  {
  }

  // Dividing by twice `p` is halving first.
  lemma HalfByHalf(n: nat, p: nat, d: nat)
    requires p > 0 && d == 2 * p
    ensures n / d == n / 2 / p && n % d == 2 * (n / 2 % p) + n % 2
  {
    var (h, q, r) := (n / 2, n / 2 / p, n / 2 % p);
    Divided(h, p);
    Rebuilt(n, h, p, q, r, d);
    Quotient(d, q, 2 * r + n % 2);
  }

  lemma DivideTwice(n: nat, p: nat)
    requires p > 0
    ensures n / 2 / p == n / (2 * p)
  {
    HalfByHalf(n, p, 2 * p);
  }

  lemma {:induction false} ShiftDivides(n: nat, k: nat)
    ensures Shifted(n, k) == n / Pow2(k)
  {
    if k > 0 {
      ShiftDivides(n / 2, k - 1);
      DivideTwice(n, Pow2(k - 1));
    }
  }

  lemma LowValue(n: nat, w: nat)
    ensures ValueOf(BitsOf(n, w)) == n % Pow2(w)
  {
    BitsOfRemainder(n, w, w);
    ValueOfBits(n % Pow2(w), w);
  }

  lemma Quotient(p: nat, q: nat, r: nat)
    requires r < p
    ensures (p * q + r) / p == q && (p * q + r) % p == r
  {
    var n := p * q + r;
    var d := n / p - q;
    assert p * d == r - n % p;
    Multiples(p, d);
  }

  lemma Multiples(p: int, d: int)
    requires p >= 0
    ensures d >= 1 ==> p * d >= p
    ensures d <= -1 ==> p * d <= -p
    ensures d <= 0 ==> p * d <= 0
  {
    if d >= 1 {
      assert p * d == p * (d - 1) + p;
    } else if d <= -1 {
      assert p * d == p * (d + 1) - p;
    }
  }

  // High bits, then low bits.
  lemma {:induction false} BitsSplit(n: nat, high: nat, low: nat)
    ensures BitsOf(n, high + low) == BitsOf(Shifted(n, low), high) + BitsOf(n, low)
    decreases low
  {
    if low > 0 {
      BitsSplit(n / 2, high, low - 1);
    }
  }

  // Bits above those asked for do not matter.
  lemma {:induction false} BitsOfRemainder(n: nat, k: nat, w: nat)
    requires w <= k
    ensures BitsOf(n % Pow2(k), w) == BitsOf(n, w)
    decreases w
  {
    if w > 0 {
      BitsOfRemainder(n / 2, k - 1, w - 1);
      HalfOfRemainder(n, Pow2(k - 1));
    }
  }

  lemma HalfOfRemainder(n: nat, p: nat)
    requires p > 0
    ensures n % (2 * p) / 2 == n / 2 % p && n % (2 * p) % 2 == n % 2
  {
    HalfByHalf(n, p, 2 * p);
  }

  lemma GroupsOne(bits: seq<Bit>, rest: seq<Bit>, w: nat)
    requires w > 0 && |bits| == w
    ensures Groups(bits + rest, w) == [ValueOf(bits)] + Groups(rest, w)
  {
    assert (bits + rest)[..w] == bits && (bits + rest)[w..] == rest;
  }

  // Grouping undoes spreading, whatever shorter rest follows.
  lemma {:induction false} GroupsOfSpread(numbers: seq<nat>, w: nat, rest: seq<Bit>)
    requires w > 0 && |rest| < w && forall i :: 0 <= i < |numbers| ==> numbers[i] < Pow2(w)
    ensures Groups(Spread(numbers, w) + rest, w) == numbers
  {
    if numbers == [] {
      assert Spread(numbers, w) + rest == rest;
    } else {
      GroupsOfSpread(numbers[1..], w, rest);
      assert Spread(numbers, w) + rest == BitsOf(numbers[0], w) + (Spread(numbers[1..], w) + rest);
      GroupsOne(BitsOf(numbers[0], w), Spread(numbers[1..], w) + rest, w);
      ValueOfBits(numbers[0], w);
    }
  }

  // Spreading undoes grouping when nothing is left over.
  lemma {:induction false} SpreadOfGroups(bits: seq<Bit>, w: nat)
    requires w > 0 && |bits| % w == 0
    ensures Spread(Groups(bits, w), w) == bits
    ensures |Groups(bits, w)| == |bits| / w && forall i :: 0 <= i < |Groups(bits, w)| ==> Groups(bits, w)[i] < Pow2(w)
    decreases |bits|
  {
    if |bits| >= w {
      OneGroupLess(|bits|, w);
      SpreadOfGroups(bits[w..], w);
      BitsOfValue(bits[..w]);
      assert bits == bits[..w] + bits[w..];
    } else {
      SmallMultiple(|bits|, w);
    }
  }

  lemma SmallMultiple(n: nat, w: nat)
    requires n < w && n % w == 0
    ensures n == 0 && n / w == 0
  {
    Quotient(w, 0, n);
  }

  lemma OneGroupLess(n: nat, w: nat)
    requires 0 < w <= n
    ensures (n - w) % w == n % w && (n - w) / w == n / w - 1
  {
    var (q, r) := (n / w, n % w);
    assert n == w * q + r;
    assert n - w == w * (q - 1) + r;
    Multiples(w, q);
    Quotient(w, q - 1, r);
  }

  lemma {:induction false} GroupsConcat(a: seq<Bit>, b: seq<Bit>, w: nat)
    requires w > 0 && |a| % w == 0
    ensures Groups(a + b, w) == Groups(a, w) + Groups(b, w)
    decreases |a|
  {
    if |a| >= w {
      OneGroupLess(|a|, w);
      GroupsConcat(a[w..], b, w);
      assert a + b == a[..w] + (a[w..] + b);
      GroupsOne(a[..w], a[w..] + b, w);
    } else {
      SmallMultiple(|a|, w);
      assert a + b == b;
    }
  }

  lemma Associate(a: seq<Bit>, b: seq<Bit>, c: seq<Bit>)
    ensures a + b + c == a + (b + c)
  {
  }

  lemma {:induction false} SpreadConcat(a: seq<nat>, b: seq<nat>, w: nat)
    ensures Spread(a + b, w) == Spread(a, w) + Spread(b, w)
  {
    if a == [] {
      assert a + b == b;
    } else {
      SpreadConcat(a[1..], b, w);
      assert (a + b)[1..] == a[1..] + b;
      Associate(BitsOf(a[0], w), Spread(a[1..], w), Spread(b, w));
    }
  }
}
