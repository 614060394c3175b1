/**
 What the checksum means: the remainder of dividing the message, followed by sixteen
 zero bits and with its first sixteen bits inverted, by the generator polynomial.
 A bit string of length n stands for a polynomial over GF(2) of degree below n,
 highest power first.
 */
module CrcDivision {
  import opened Bytes
  import opened Crc

  /** The generator x^16 + x^12 + x^5 + 1 has a term in x^e. */
  predicate GeneratorTerm(e: int) {
    e == 16 || e == 12 || e == 5 || e == 0
  }

  /** Coefficient `i` of the product of `q` and the generator, a polynomial of |q| + 16 coefficients. */
  function Product(q: seq<bool>, i: nat): bool
    decreases q
  {
    q != [] && ((q[0] && GeneratorTerm(16 - i)) != (i > 0 && Product(q[1..], i - 1)))
  }

  /** Quotient `q` and remainder `r` divide `d`: d = q * generator + r. */
  ghost predicate Divides(q: seq<bool>, r: reg, d: seq<bool>) {
    |d| == |q| + 16 && forall i | 0 <= i < |d| :: d[i] == (Product(q, i) != (i >= |q| && r[i - |q|]))
  }

  ghost predicate IsRemainder(d: seq<bool>, r: reg) {
    exists q: seq<bool> :: Divides(q, r, d)
  }

  /** The message times x^16, plus `init` aligned with the first message bits. */
  function Dividend(init: reg, bits: seq<bool>): (d: seq<bool>)
    ensures |d| == |bits| + 16
  {
    seq(|bits| + 16, i requires 0 <= i < |bits| + 16 => (i < |bits| && bits[i]) != (i < 16 && init[i]))
  }

  lemma StepAt(x: reg, i: nat)
    requires i < 17
    ensures (i < 16 && x[i]) == ((x[0] && GeneratorTerm(16 - i)) != (i > 0 && Step(x)[i - 1]))
  {
    if i > 0 {
      assert Step(x)[i - 1] == ((x[0] && PolyBits()[i - 1]) != (x[1..] + [false])[i - 1]);
    }
  }

  /** Long division: the register run produces a quotient, one coefficient per bit. */
  lemma {:induction false} RunDivides(r: reg, bits: seq<bool>) returns (q: seq<bool>)
    ensures Divides(q, Run(r, bits), Dividend(r, bits))
    decreases bits
  {
    if bits == [] {
      q := [];
    } else {
      var x: reg := r[0 := r[0] != bits[0]];
      var q' := RunDivides(Step(x), bits[1..]);
      q := [x[0]] + q';
      assert q[1..] == q';
      DivideStep(r, bits, x, q', Run(r, bits));
    }
  }

  lemma DivideStep(r: reg, bits: seq<bool>, x: reg, q': seq<bool>, out: reg)
    requires bits != [] && x == r[0 := r[0] != bits[0]]
    requires Divides(q', out, Dividend(Step(x), bits[1..]))
    ensures Divides([x[0]] + q', out, Dividend(r, bits))
  {
    var q := [x[0]] + q';
    assert q[1..] == q';
    var d, d' := Dividend(r, bits), Dividend(Step(x), bits[1..]);
    forall i | 0 <= i < |d|
      ensures d[i] == (Product(q, i) != (i >= |q| && out[i - |q|]))
    {
      if i < 17 {
        StepAt(x, i);
      }
      if i > 0 {
        assert d'[i - 1] == (Product(q', i - 1) != (i - 1 >= |q'| && out[i - 1 - |q'|]));
      }
    }
  }

  lemma {:induction false} RemainderUnique(d: seq<bool>, q: seq<bool>, r: reg, q': seq<bool>, r': reg)
    requires Divides(q, r, d) && Divides(q', r', d)
    ensures r == r' && q == q'
    decreases q
  {
    var n := |q|;
    if n == 0 {
      forall i | 0 <= i < 16
        ensures r[i] == r'[i]
      {
        assert d[i] == r[i] && d[i] == r'[i];
      }
    } else {
      assert q[0] == d[0] == q'[0];
      var s := seq(n + 15, i requires 0 <= i < n + 15 => d[i + 1] != (q[0] && GeneratorTerm(15 - i)));
      StripLead(d, s, q, r);
      StripLead(d, s, q', r');
      RemainderUnique(s, q[1..], r, q'[1..], r');
    }
  }

  lemma StripLead(d: seq<bool>, s: seq<bool>, q: seq<bool>, r: reg)
    requires Divides(q, r, d) && q != [] && |s| == |d| - 1
    requires forall i | 0 <= i < |s| :: s[i] == (d[i + 1] != (q[0] && GeneratorTerm(15 - i)))
    ensures Divides(q[1..], r, s)
  {
    forall i | 0 <= i < |s|
      ensures s[i] == (Product(q[1..], i) != (i >= |q| - 1 && r[i - |q| + 1]))
    {
      assert d[i + 1] == (Product(q, i + 1) != (i + 1 >= |q| && r[i + 1 - |q|]));
    }
  }

  /**
   The message times x^16 with its first sixteen bits inverted: the checksum of any byte string is the
   remainder of its division by the generator, and nothing else is.
   */
  lemma ChecksumIsTheRemainder(data: bytes, d: seq<bool>, r: reg)
    requires |d| == |Bits(data)| + 16
    requires forall i | 0 <= i < |d| :: d[i] == ((i < |Bits(data)| && Bits(data)[i]) != (i < 16))
    ensures IsRemainder(d, r) <==> r == RegBits(Checksum(data))
  {
    RunRefines(INIT, Bits(data));
    AllOnes();
    var crc := RegBits(Checksum(data));
    var q := RunDivides(RegBits(INIT), Bits(data));
    assert d == Dividend(RegBits(INIT), Bits(data));
    if IsRemainder(d, r) {
      var q' :| Divides(q', r, d);
      RemainderUnique(d, q', r, q, crc);
    }
  }

  lemma AllOnes()
    ensures forall i | 0 <= i < 16 :: RegBits(INIT)[i]
  {
    MaskValues();
  }

  // ---- Which changes go unnoticed ----

  lemma ZeroRemainder(d: seq<bool>)
    ensures IsRemainder(d + Zeros(16), Zeros(16)) <==> Run(Zeros(16), d) == Zeros(16)
  {
    var q := RunDivides(Zeros(16), d);
    assert Dividend(Zeros(16), d) == d + Zeros(16);
    if IsRemainder(d + Zeros(16), Zeros(16)) {
      var q' :| Divides(q', Zeros(16), d + Zeros(16));
      RemainderUnique(d + Zeros(16), q', Zeros(16), q, Run(Zeros(16), d));
    }
  }

  /** A change goes unnoticed if and only if the generator divides the difference of the messages. */
  lemma UnnoticedIff(a: bytes, b: bytes)
    requires |a| == |b|
    ensures Checksum(a) == Checksum(b) <==> IsRemainder(Xor(Bits(a), Bits(b)) + Zeros(16), Zeros(16))
  {
    hide *;
    SameChecksum(a, b);
    ZeroRemainder(Xor(Bits(a), Bits(b)));
  }

  /** Whether an odd number of the bits is set. */
  function Odd(bits: seq<bool>): bool {
    bits != [] && bits[0] != Odd(bits[1..])
  }

  lemma {:induction false} OddXor(a: seq<bool>, b: seq<bool>)
    requires |a| == |b|
    ensures Odd(Xor(a, b)) == (Odd(a) != Odd(b))
  {
    if a != [] {
      assert Xor(a, b)[1..] == Xor(a[1..], b[1..]);
      OddXor(a[1..], b[1..]);
    }
  }

  lemma {:induction false} OddSnoc(s: seq<bool>, t: bool)
    ensures Odd(s + [t]) == (Odd(s) != t)
    decreases s
  {
    if s == [] {
      assert ([] + [t])[1..] == [];
    } else {
      assert (s + [t])[1..] == s[1..] + [t];
      OddSnoc(s[1..], t);
    }
  }

  lemma {:induction false} OddZeros(n: nat)
    ensures !Odd(Zeros(n))
  {
    if n > 0 {
      assert Zeros(n)[1..] == Zeros(n - 1);
      OddZeros(n - 1);
    }
  }

  /** The generator has an even number of terms, so a step keeps the parity. */
  lemma OddStep(r: reg)
    ensures Odd(Step(r)) == Odd(r)
  {
    OddSnoc(r[1..], false);
    OddXor(r[1..] + [false], PolyBits());
    OddPoly();
  }

  lemma OddPoly()
    ensures Odd(PolyBits())
  {
    var p := PolyBits();
    assert p == Zeros(3) + ([true] + (Zeros(6) + ([true] + (Zeros(4) + [true]))));
    OddZerosThen(4, [true]);
    OddZerosThen(6, [true] + (Zeros(4) + [true]));
    OddZerosThen(3, [true] + (Zeros(6) + ([true] + (Zeros(4) + [true]))));
    assert [true][1..] == [];
    OddTrueThen(Zeros(4) + [true]);
    OddTrueThen(Zeros(6) + ([true] + (Zeros(4) + [true])));
  }

  lemma OddTrueThen(s: seq<bool>)
    ensures Odd([true] + s) == !Odd(s)
  {
    assert ([true] + s)[1..] == s;
  }

  lemma {:induction false} OddZerosThen(n: nat, s: seq<bool>)
    ensures Odd(Zeros(n) + s) == Odd(s)
  {
    if n == 0 {
      assert Zeros(0) + s == s;
    } else {
      assert (Zeros(n) + s)[1..] == Zeros(n - 1) + s;
      OddZerosThen(n - 1, s);
    }
  }

  lemma {:induction false} OddRun(r: reg, bits: seq<bool>)
    ensures Odd(Run(r, bits)) == (Odd(r) != Odd(bits))
    decreases bits
  {
    if bits != [] {
      var x: reg := r[0 := r[0] != bits[0]];
      assert x[1..] == r[1..];
      OddStep(x);
      OddRun(Step(x), bits[1..]);
    }
  }

  /** In particular every change of an odd number of bits is detected. */
  lemma OddChangeDetected(a: bytes, b: bytes)
    requires |a| == |b| && Odd(Xor(Bits(a), Bits(b)))
    ensures Checksum(a) != Checksum(b)
  {
    OddRun(Zeros(16), Xor(Bits(a), Bits(b)));
    OddZeros(16);
    hide *;
    SameChecksum(a, b);
  }
}
