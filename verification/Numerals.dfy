/** The number systems that the layouts count in: bijective base-B numerals for tiering,
    binary for the Bentley-Saxe layout. Least significant digit first. */
module Numerals {

  function Pow(b: nat, e: nat): nat {
    if e == 0 then 1 else b * Pow(b, e - 1)
  }

  /** The bijective numeral: digits 1, ..., B and no zero. */
  function Numeral(b: nat, n: nat): seq<nat>
    requires b >= 2
  {
    if n == 0 then [] else [(n - 1) % b + 1] + Numeral(b, (n - 1) / b)
  }

  function Value(b: nat, digits: seq<nat>): nat {
    if digits == [] then 0 else digits[0] + b * Value(b, digits[1..])
  }

  ghost predicate Digits(b: nat, digits: seq<nat>) {
    forall i :: 0 <= i < |digits| ==> 1 <= digits[i] <= b
  }

  /** Counting up by one, with carry. */
  function Inc(b: nat, digits: seq<nat>): seq<nat> {
    if digits == [] then [1]
    else if digits[0] < b then [digits[0] + 1] + digits[1..]
    else [1] + Inc(b, digits[1..])
  }

  lemma DivStep(b: nat, n: nat)
    requires b >= 2 && n >= 1
    ensures (n - 1) % b + 1 < b ==> n % b == (n - 1) % b + 1 && n / b == (n - 1) / b
    ensures (n - 1) % b + 1 == b ==> n % b == 0 && n / b == (n - 1) / b + 1
  {
    var q, r := (n - 1) / b, (n - 1) % b;
    assert n == b * q + (r + 1);
    if r + 1 < b {
      DivUnique(b, n, q, r + 1);
    } else {
      assert n == b * (q + 1) + 0;
      DivUnique(b, n, q + 1, 0);
    }
  }

  lemma DivUnique(b: nat, n: nat, q: nat, r: nat)
    requires r < b && n == b * q + r
    ensures n / b == q && n % b == r
  {
    var d := n / b - q;
    assert b * d == r - n % b;
    Multiples(b, d);
  }

  lemma Multiples(b: int, d: int)
    requires b >= 0
    ensures d >= 1 ==> b * d >= b
    ensures d <= -1 ==> b * d <= -b
  {
    assert b * d == b + b * (d - 1);
    assert b * d == b * (d + 1) - b;
  }

  lemma Unfold(b: nat, n: nat)
    requires b >= 2
    ensures n == 0 ==> Numeral(b, n) == []
    ensures n > 0 ==> Numeral(b, n) == [(n - 1) % b + 1] + Numeral(b, (n - 1) / b)
  {
  }

  lemma {:induction false} IncNumeral(b: nat, n: nat)
    requires b >= 2
    ensures Inc(b, Numeral(b, n)) == Numeral(b, n + 1)
    decreases n
  {
    hide Numeral;
    Unfold(b, n);
    Unfold(b, n + 1);
    if n == 0 {
      assert 0 / b == 0 && 0 % b == 0;
    } else {
      DivStep(b, n);
      var q := (n - 1) / b;
      if (n - 1) % b + 1 == b {
        IncNumeral(b, q);
      }
    }
  }

  lemma {:induction false} NumeralDenotes(b: nat, n: nat)
    requires b >= 2
    ensures Digits(b, Numeral(b, n)) && Value(b, Numeral(b, n)) == n
    decreases n
  {
    hide Numeral, Value;
    Unfold(b, n);
    if n > 0 {
      var q, r := (n - 1) / b, (n - 1) % b;
      assert b * q + r == n - 1;
      NumeralDenotes(b, q);
      ValueCons(b, r + 1, Numeral(b, q));
    } else {
      ValueOfNothing(b);
    }
  }

  lemma ValueCons(b: nat, d: nat, tail: seq<nat>)
    ensures Value(b, [d] + tail) == d + b * Value(b, tail)
  {
    assert ([d] + tail)[1..] == tail;
  }

  lemma ValueOfNothing(b: nat)
    ensures Value(b, []) == 0
  {
  }

  lemma {:induction false} NumeralUnique(b: nat, digits: seq<nat>)
    requires b >= 2 && Digits(b, digits)
    ensures digits == Numeral(b, Value(b, digits))
  {
    hide Numeral;
    var n := Value(b, digits);
    Unfold(b, n);
    if digits != [] {
      var d, rest := digits[0], digits[1..];
      NumeralUnique(b, rest);
      DivUnique(b, n - 1, Value(b, rest), d - 1);
      assert digits == [d] + rest;
    }
  }

  /** The numeral denotes n, with digits 1, ..., B; and no other such numeral does. */
  lemma NumeralIsTheOne(b: nat, n: nat, digits: seq<nat>)
    requires b >= 2
    ensures Digits(b, Numeral(b, n)) && Value(b, Numeral(b, n)) == n
    ensures Digits(b, digits) && Value(b, digits) == n ==> digits == Numeral(b, n)
  {
    hide Numeral, Value;
    NumeralDenotes(b, n);
    if Digits(b, digits) {
      NumeralUnique(b, digits);
    }
  }

  function Bits(n: nat): seq<bool> {
    if n == 0 then [] else [n % 2 == 1] + Bits(n / 2)
  }

  function BitInc(bits: seq<bool>): seq<bool> {
    if bits == [] then [true]
    else if !bits[0] then [true] + bits[1..]
    else [false] + BitInc(bits[1..])
  }

  lemma {:induction false} BitIncBits(n: nat)
    ensures BitInc(Bits(n)) == Bits(n + 1)
  {
    if n > 0 {
      assert Bits(n)[1..] == Bits(n / 2);
      if n % 2 == 1 {
        BitIncBits(n / 2);
        assert (n + 1) / 2 == n / 2 + 1;
      } else {
        assert (n + 1) / 2 == n / 2;
      }
    } else {
      assert Bits(1) == [true] + Bits(0);
    }
  }

  lemma HalfDiv(n: nat, p: nat)
    requires p >= 1
    ensures (n / 2) / p == n / (2 * p)
  {
    var q := n / (2 * p);
    var r := n % (2 * p);
    assert n == 2 * (p * q) + r;
    assert n / 2 == p * q + r / 2;
    assert r / 2 < p;
    DivUnique(p, n / 2, q, r / 2);
  }

  /** Bit i of the representation is bit i of the number; beyond its length there are none. */
  lemma {:induction false} BitsAt(n: nat, i: nat)
    ensures Pow(2, i) >= 1 && ((n / Pow(2, i)) % 2 == 1 <==> i < |Bits(n)| && Bits(n)[i])
    decreases i
  {
    if i > 0 {
      BitsAt(n / 2, i - 1);
      HalfDiv(n, Pow(2, i - 1));
      assert Pow(2, i) == 2 * Pow(2, i - 1);
      if n > 0 {
        assert Bits(n)[1..] == Bits(n / 2);
      }
    }
  }
}
