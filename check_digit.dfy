/** The mod-10 check digit of UPC-A, EAN-13 and EAN-8.

    The page computes it from two positional sums over the base, counting
    positions from 1 at the left; GS1 General Specifications section 7.9.1
    states the rule from the right: the base digit next to the check digit
    weighs 3, and the weights alternate 3, 1, 3, 1 going left.  This module
    defines both and proves them equal. */
module CheckDigit {

  /** A sequence of decimal digit values. */
  predicate AreDigits(ds: seq<nat>) {
    forall i | 0 <= i < |ds| :: ds[i] < 10
  }

  /** Sum of the digits at odd 1-indexed positions (1st, 3rd, ...). */
  function SumOdd(ds: seq<nat>): nat
    decreases |ds|
  {
    if |ds| == 0 then 0
    else SumOdd(ds[..|ds| - 1]) + (if |ds| % 2 == 1 then ds[|ds| - 1] else 0)
  }

  /** Sum of the digits at even 1-indexed positions (2nd, 4th, ...). */
  function SumEven(ds: seq<nat>): nat
    decreases |ds|
  {
    if |ds| == 0 then 0
    else SumEven(ds[..|ds| - 1]) + (if |ds| % 2 == 0 then ds[|ds| - 1] else 0)
  }

  /** One more digit on the right adds to the sum of its position's
      parity. */
  lemma SumsStep(ds: seq<nat>, i: nat)
    requires i < |ds|
    ensures SumOdd(ds[..i + 1]) == SumOdd(ds[..i]) + (if (i + 1) % 2 == 1 then ds[i] else 0)
    ensures SumEven(ds[..i + 1]) == SumEven(ds[..i]) + (if (i + 1) % 2 == 0 then ds[i] else 0)
  {
    assert ds[..i + 1][..i] == ds[..i];
  }

  /** The GS1 weight of a base digit standing `distance` places left of the
      check digit. */
  function Gs1Weight(distance: nat): nat {
    if distance % 2 == 1 then 3 else 1
  }

  /** The right-aligned GS1 weighted sum of a base. */
  function Gs1Sum(ds: seq<nat>): nat
    decreases |ds|
  {
    if |ds| == 0 then 0 else Gs1Weight(|ds|) * ds[0] + Gs1Sum(ds[1..])
  }

  /** `(10 - (total % 10)) % 10`: the one digit that brings the total to a
      multiple of ten. */
  function CheckDigitFor(total: nat): (c: nat)
    ensures c < 10 && (total + c) % 10 == 0
  {
    (10 - total % 10) % 10
  }

  function Gs1CheckDigit(base: seq<nat>): nat {
    CheckDigitFor(Gs1Sum(base))
  }

  /** A full number (base followed by check digit) that satisfies GS1. */
  predicate Gs1Valid(full: seq<nat>) {
    |full| >= 1 && (Gs1Sum(full[..|full| - 1]) + full[|full| - 1]) % 10 == 0
  }

  /** A digit completes a total exactly when it is CheckDigitFor(total). */
  lemma CheckDigitUnique(total: nat, c: nat)
    requires c < 10
    ensures (total + c) % 10 == 0 <==> c == CheckDigitFor(total)
  {
  }

  /** Appending a digit is GS1-valid exactly when the digit is the GS1 check
      digit of the base. */
  lemma Gs1ValidIffCheckDigit(base: seq<nat>, c: nat)
    requires c < 10
    ensures Gs1Valid(base + [c]) <==> c == Gs1CheckDigit(base)
  {
    assert (base + [c])[..|base|] == base;
    CheckDigitUnique(Gs1Sum(base), c);
  }

  /** Reading the positional sums from the front: the first digit is at an
      odd position, and every other digit moves one position down. */
  lemma {:induction false} SumsFromFront(ds: seq<nat>)
    requires |ds| > 0
    ensures SumOdd(ds) == ds[0] + SumEven(ds[1..])
    ensures SumEven(ds) == SumOdd(ds[1..])
    decreases |ds|
  {
    var n := |ds|;
    if n > 1 {
      var p := ds[..n - 1];
      SumsFromFront(p);
      assert ds[1..][..n - 2] == p[1..];
      assert ds[1..][n - 2] == ds[n - 1];
    }
  }

  /** The page's positional sums are the GS1 sum: for an odd-length base
      (UPC-A, EAN-8) the odd positions carry weight 3, for an even-length base
      (EAN-13) the even positions do. */
  lemma {:induction false} PositionalSumsAreGs1(ds: seq<nat>)
    ensures Gs1Sum(ds) == if |ds| % 2 == 1 then 3 * SumOdd(ds) + SumEven(ds)
                          else SumOdd(ds) + 3 * SumEven(ds)
    decreases |ds|
  {
    if |ds| > 0 {
      SumsFromFront(ds);
      PositionalSumsAreGs1(ds[1..]);
    }
  }

  /** Weighting the odd positions of a 12-digit base, as the other two
      symbologies do, would give a different check digit than GS1 for
      EAN-13: the asymmetry in the page is needed. */
  lemma OddWeightingDiffersForEvenLength()
    ensures var base: seq<nat> := [1, 0, 0, 0, 0, 0, 0, 0, 0, 0, 0, 0];
            CheckDigitFor(3 * SumOdd(base) + SumEven(base)) != Gs1CheckDigit(base)
  {
    var base: seq<nat> := [1, 0, 0, 0, 0, 0, 0, 0, 0, 0, 0, 0];
    var rest := base[1..];
    ZeroSums(rest);
    SumsFromFront(base);
    assert SumOdd(base) == 1 && SumEven(base) == 0;
    PositionalSumsAreGs1(base);
    assert Gs1Sum(base) == 1;
    assert CheckDigitFor(3) == 7 && CheckDigitFor(1) == 9;
  }

  lemma {:induction false} ZeroSums(ds: seq<nat>)
    requires forall i | 0 <= i < |ds| :: ds[i] == 0
    ensures SumOdd(ds) == 0 && SumEven(ds) == 0
    decreases |ds|
  {
    if |ds| > 0 {
      ZeroSums(ds[..|ds| - 1]);
    }
  }
}
