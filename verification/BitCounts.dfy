/** Leading zeros and set bits of an integer of fixed width, by shifts and sums. */
module BitCounts {

  /** A bit pattern, the lowest bit first. */
  type Bits = seq<bool>

  function Pow2(n: nat): (p: nat)
    ensures p >= 1
  {
    if n == 0 then 1 else 2 * Pow2(n - 1)
  }

  /** The pattern as an unsigned number. */
  function Unsigned(b: Bits): (v: nat)
    ensures v < Pow2(|b|)
  {
    if b == [] then 0 else Unsigned(b[..|b| - 1]) + if b[|b| - 1] then Pow2(|b| - 1) else 0
  }

  /** Reading the pattern from its low end: each bit counts twice the one before. */
  lemma {:induction false} LowBit(b: Bits)
    requires b != []
    ensures Unsigned(b) == 2 * Unsigned(b[1..]) + if b[0] then 1 else 0
  {
    var n := |b| - 1;
    if n == 0 {
      assert b[..0] == [] && b[1..] == [];
    } else {
      LowBit(b[..n]);
      assert b[..n][1..] == b[1..][..n - 1] && b[1..][n - 1] == b[n];
    }
  }

  /** The pattern as a number in two's complement: in range, and the unsigned number but for the width. */
  function Signed(b: Bits): (v: int)
    ensures v == Unsigned(b) || v == Unsigned(b) - Pow2(|b|)
    ensures b != [] ==> -(Pow2(|b| - 1) as int) <= v < Pow2(|b| - 1)
  {
    if b != [] && b[|b| - 1] then Unsigned(b) - Pow2(|b|) else Unsigned(b)
  }

  /** How many bits above the highest set one. */
  function LeadingZeros(b: Bits): (n: nat)
    ensures n <= |b|
  {
    if b == [] then 0 else if b[|b| - 1] then 0 else 1 + LeadingZeros(b[..|b| - 1])
  }

  function Population(b: Bits): (n: nat)
    ensures n <= |b|
  {
    if b == [] then 0 else Population(b[..|b| - 1]) + if b[|b| - 1] then 1 else 0
  }

  /** Exactly the set bits are counted. */
  lemma {:induction false} PopulationCounts(b: Bits)
    ensures Population(b) == |set i | 0 <= i < |b| && b[i]|
  {
    if b != [] {
      var n := |b| - 1;
      PopulationCounts(b[..n]);
      var before := set i | 0 <= i < n && b[..n][i];
      assert (set i | 0 <= i < |b| && b[i]) == before + if b[n] then {n} else {};
    }
  }

  /** The number of leading zeros bounds the value on both sides; a negative number has none. */
  lemma {:induction false} LeadingZerosBound(b: Bits)
    ensures Unsigned(b) < Pow2(|b| - LeadingZeros(b))
    ensures LeadingZeros(b) < |b| ==> Unsigned(b) >= Pow2(|b| - LeadingZeros(b) - 1)
    ensures Signed(b) < 0 ==> LeadingZeros(b) == 0
  {
    if b != [] && !b[|b| - 1] {
      LeadingZerosBound(b[..|b| - 1]);
    }
  }

  // -- shifting and or-ing -----------------------------------------------------------------

  /** A right shift; a signed number shifts its sign in. */
  function ShiftRight(b: Bits, n: nat, signed: bool): (r: Bits)
    ensures |r| == |b| && forall i :: 0 <= i < |r| ==> r[i] == if i + n < |b| then b[i + n] else signed && b[|b| - 1]
  {
    seq(|b|, i requires 0 <= i < |b| => if i + n < |b| then b[i + n] else signed && b[|b| - 1])
  }

  function Or(a: Bits, b: Bits): (r: Bits)
    requires |a| == |b|
    ensures |r| == |a| && forall i :: 0 <= i < |r| ==> r[i] == (a[i] || b[i])
  {
    seq(|a|, i requires 0 <= i < |a| => a[i] || b[i])
  }

  /** A bit is set somewhere in a stretch. */
  predicate AnySet(b: Bits, from: nat, to: nat) {
    exists k :: from <= k < to && k < |b| && b[k]
  }

  /** Every bit at or below a set one. */
  predicate Smeared(b: Bits, r: Bits) {
    |r| == |b| && forall i :: 0 <= i < |r| ==> (r[i] <==> AnySet(b, i, |b|))
  }

  /** Smearing doubles its reach with every step. */
  lemma SmearStep(b: Bits, s: Bits, shift: nat, signed: bool, i: nat)
    requires |s| == |b| && i < |b| && shift >= 1
    requires forall j :: 0 <= j < |s| ==>
        (s[j] <==> AnySet(b, j, j + shift) || (signed && b[|b| - 1] && j + shift > |b| - 1))
    ensures Or(s, ShiftRight(s, shift, signed))[i] <==>
        AnySet(b, i, i + 2 * shift) || (signed && b[|b| - 1] && i + 2 * shift > |b| - 1)
  {
    var t := ShiftRight(s, shift, signed);
    assert Or(s, t)[i] == (s[i] || t[i]);
    if k :| i <= k < i + 2 * shift && k < |b| && b[k] {
      if k >= i + shift {
        assert AnySet(b, i + shift, i + shift + shift);
      } else {
        assert AnySet(b, i, i + shift);
      }
    }
    if i + shift < |b| {
      assert t[i] == s[i + shift];
    } else {
      assert t[i] == (signed && s[|b| - 1]);
      assert s[|b| - 1] <==> b[|b| - 1] by {
        if b[|b| - 1] { assert AnySet(b, |b| - 1, |b| - 1 + shift); }
      }
    }
  }

  /** Or each bit into all lower ones, with doubling shifts. */
  method Smear(b: Bits, signed: bool) returns (s: Bits)
    requires b != []
    ensures Smeared(b, s)
  {
    s := b;
    var shift := 1;
    assert forall j :: 0 <= j < |s| ==> (s[j] <==> AnySet(b, j, j + 1));
    while shift < |b|
      invariant shift >= 1 && |s| == |b|
      invariant forall j :: 0 <= j < |s| ==>
          (s[j] <==> AnySet(b, j, j + shift) || (signed && b[|b| - 1] && j + shift > |b| - 1))
      decreases |b| - shift
    {
      forall i | 0 <= i < |b|
        ensures Or(s, ShiftRight(s, shift, signed))[i] <==>
            AnySet(b, i, i + 2 * shift) || (signed && b[|b| - 1] && i + 2 * shift > |b| - 1)
      {
        SmearStep(b, s, shift, signed, i);
      }
      s := Or(s, ShiftRight(s, shift, signed));
      shift := 2 * shift;
    }
    forall i | 0 <= i < |s| ensures s[i] <==> AnySet(b, i, |b|) {
      if signed && b[|b| - 1] { assert AnySet(b, i, |b|); }
    }
  }

  /** The sum of the lowest bits of all right shifts. */
  method BitSum(b: Bits, signed: bool) returns (total: nat)
    requires b != []
    ensures total == Population(b)
  {
    total := if b[0] then 1 else 0;
    assert b[..1] == b[..0] + [b[0]] && b[..1][..0] == b[..0];
    for i := 1 to |b|
      invariant total == Population(b[..i])
    {
      assert b[..i + 1][..i] == b[..i];
      total := total + if ShiftRight(b, i, signed)[0] then 1 else 0;
    }
    assert b[..|b|] == b;
  }

  /** A smeared pattern is ones up to the highest set bit. */
  lemma {:induction false} SmearedCount(b: Bits, s: Bits)
    requires Smeared(b, s)
    ensures |b| - Population(s) == LeadingZeros(b)
  {
    if b != [] {
      var n := |b| - 1;
      if b[n] {
        forall i | 0 <= i < |s| ensures s[i] {
          assert AnySet(b, i, |b|);
        }
        AllOnes(s);
      } else {
        assert !AnySet(b, n, |b|);
        forall i | 0 <= i < n ensures s[..n][i] <==> AnySet(b[..n], i, n) {
          if AnySet(b, i, |b|) {
            var k :| i <= k < |b| && b[k];
            assert b[..n][k];
          }
          if k :| i <= k < n && k < |b[..n]| && b[..n][k] {
            assert b[k];
          }
        }
        SmearedCount(b[..n], s[..n]);
      }
    }
  }

  lemma {:induction false} AllOnes(s: Bits)
    requires forall i :: 0 <= i < |s| ==> s[i]
    ensures Population(s) == |s|
  {
    if s != [] {
      AllOnes(s[..|s| - 1]);
    }
  }

  method CountLeadingZeros(b: Bits, signed: bool) returns (n: nat)
    requires b != []
    ensures n == LeadingZeros(b)
  {
    var smeared := Smear(b, signed);
    var total := BitSum(smeared, signed);
    SmearedCount(b, smeared);
    n := |b| - total;
  }

  method PopulationCount(b: Bits, signed: bool) returns (n: nat)
    requires b != []
    ensures n == Population(b)
  {
    n := BitSum(b, signed);
  }
}
