/** The account checksum (validateCheckSum): digits weighted 1, 2, 3, ...
    from the right, summed, and the sum checked for divisibility by 11.

validateCheckSum reverses the account and sums (position + 1) * parseInt(digit)
over the reversed characters. It runs on JavaScript numbers, so a character
that is not a decimal digit parses to NaN, turns the whole sum into NaN, and
makes the final test fail.
 */
module Checksum {
  import opened Glyphs

  const Modulus: nat := 11

  /** A JavaScript number as far as the checksum needs one: an integer, or NaN. */
  datatype Number = Int(value: int) | NaN

  /** `parseInt` of a one-character string: the value of a decimal digit,
      NaN for any other character. */
  function ParseInt(c: char): (n: Number)
    ensures n.Int? <==> IsDigit(c)
    ensures n.Int? ==> 0 <= n.value <= 9 && c == ('0' as int + n.value) as char
  {
    if IsDigit(c) then Int(c as int - '0' as int) else NaN
  }

  /** `+` on numbers: NaN if either side is NaN. */
  function Plus(a: Number, b: Number): Number {
    if a.Int? && b.Int? then Int(a.value + b.value) else NaN
  }

  /** `*` of an integer and a number: NaN if the number is NaN. */
  function Times(a: int, b: Number): Number {
    if b.Int? then Int(a * b.value) else NaN
  }

  /** `sum % 11 == 0`. For integers the truncating remainder of JavaScript is
      zero exactly when Dafny's is; NaN % 11 is NaN, which equals nothing. */
  predicate IsMultipleOf11(n: Number) {
    n.Int? && n.value % Modulus == 0
  }

  /** `s.split('').reverse()`. */
  function Reverse(s: string): (r: string)
    ensures |r| == |s|
    ensures forall i :: 0 <= i < |s| ==> r[i] == s[|s| - 1 - i]
  {
    if s == "" then "" else Reverse(s[1..]) + [s[0]]
  }

  /** The `forEach` of validateCheckSum over the reversed account from
      position `index` on, with the sum accumulated so far. The result is an
      integer only when the sum so far is one and every remaining character
      is a digit. */
  function SumFrom(reversed: string, index: nat, sum: Number): (total: Number)
    ensures total.Int? ==> sum.Int? && forall i :: index <= i < |reversed| ==> IsDigit(reversed[i])
    decreases |reversed| - index
  {
    if index < |reversed| then
      SumFrom(reversed, index + 1, Plus(sum, Times(index + 1, ParseInt(reversed[index]))))
    else
      sum
  }

  /** Value of a decimal digit. */
  function DigitValue(c: char): (v: nat)
    requires IsDigit(c)
    ensures v <= 9
  {
    c as int - '0' as int
  }

  /** The checksum's weighted sum read left to right: for d1 d2 ... dn the
      sum of (n - i + 1) * di, so the rightmost digit weighs 1 and the
      leftmost weighs n. */
  function WeightedSum(s: string): nat
    requires AllDigits(s)
  {
    if s == "" then 0 else |s| * DigitValue(s[0]) + WeightedSum(s[1..])
  }

  /** The loop's sum over an all-digit reversed account from `index` on:
      position k (counted from 0) weighs k + 1. */
  function ReversedSum(reversed: string, index: nat): nat
    requires AllDigits(reversed)
    decreases |reversed| - index
  {
    if index < |reversed| then (index + 1) * DigitValue(reversed[index]) + ReversedSum(reversed, index + 1) else 0
  }

  /** Over digits only, the loop adds ReversedSum to what it starts with. */
  lemma {:induction false} SumFromDigits(reversed: string, index: nat, acc: int)
    requires AllDigits(reversed)
    ensures SumFrom(reversed, index, Int(acc)) == Int(acc + ReversedSum(reversed, index))
    decreases |reversed| - index
  {
    if index < |reversed| {
      SumFromDigits(reversed, index + 1, acc + (index + 1) * DigitValue(reversed[index]));
    }
  }

  /** Appending a digit at the far end adds it with the next weight. */
  lemma {:induction false} ReversedSumAppend(t: string, c: char, index: nat)
    requires AllDigits(t) && IsDigit(c) && index <= |t|
    ensures AllDigits(t + [c])
    ensures ReversedSum(t + [c], index) == ReversedSum(t, index) + (|t| + 1) * DigitValue(c)
    decreases |t| - index
  {
    var s := t + [c];
    if index < |t| {
      ReversedSumAppend(t, c, index + 1);
      assert s[index] == t[index];
    } else {
      assert s[index] == c;
    }
  }

  /** Summing the reversed digits with weights 1, 2, ... is the left-to-right
      weighted sum. */
  lemma {:induction false} ReversedSumIsWeightedSum(s: string)
    requires AllDigits(s)
    ensures AllDigits(Reverse(s))
    ensures ReversedSum(Reverse(s), 0) == WeightedSum(s)
  {
    if s != "" {
      var t := Reverse(s[1..]);
      assert AllDigits(s[1..]);
      ReversedSumIsWeightedSum(s[1..]);
      ReversedSumAppend(t, s[0], 0);
    }
  }

  /** The loop's sum over the reversed account is a multiple of 11 exactly
      when the account is all digits and its weighted sum is one. */
  lemma ForEachSumDecides(account: string)
    ensures IsMultipleOf11(SumFrom(Reverse(account), 0, Int(0))) <==>
              AllDigits(account) && WeightedSum(account) % Modulus == 0
  {
    if AllDigits(account) {
      ReversedSumIsWeightedSum(account);
      SumFromDigits(Reverse(account), 0, 0);
    } else {
      var i :| 0 <= i < |account| && !IsDigit(account[i]);
      assert !IsDigit(Reverse(account)[|account| - 1 - i]);
    }
  }

  /** Checks the account checksum (validateCheckSum): it passes exactly when
      every character is a digit and the weighted sum, the rightmost digit
      weighing 1 and each position to the left one more, is a multiple of 11. */
  function ValidateCheckSum(account: string): (ok: bool)
    ensures ok <==> AllDigits(account) && WeightedSum(account) % Modulus == 0
  {
    ForEachSumDecides(account);
    IsMultipleOf11(SumFrom(Reverse(account), 0, Int(0)))
  }

  /** The weighted sum of a nine-digit account, written out. */
  lemma WeightedSumOfNine(s: string)
    requires |s| == 9 && AllDigits(s)
    ensures WeightedSum(s) == 9 * DigitValue(s[0]) + 8 * DigitValue(s[1]) + 7 * DigitValue(s[2])
                            + 6 * DigitValue(s[3]) + 5 * DigitValue(s[4]) + 4 * DigitValue(s[5])
                            + 3 * DigitValue(s[6]) + 2 * DigitValue(s[7]) + DigitValue(s[8])
  {
    forall i | 0 <= i < 9
      ensures AllDigits(s[i..]) && WeightedSum(s[i..]) == (9 - i) * DigitValue(s[i]) + WeightedSum(s[i + 1..])
    {
      assert s[i..][0] == s[i];
      assert s[i..][1..] == s[i + 1..];
    }
    assert s[0..] == s;
    assert s[9..] == "";
  }

  /** The all-zero account passes. */
  lemma CheckSumZeros(s: string)
    requires s == "000000000"
    ensures ValidateCheckSum(s)
  {
    assert forall i :: 0 <= i < 9 ==> s[i] == '0';
    WeightedSumOfNine(s);
  }

  /** 345882865 passes: its weighted sum is 231 = 21 * 11. */
  lemma CheckSumPasses(s: string)
    requires s == "345882865"
    ensures ValidateCheckSum(s)
  {
    WeightedSumOfNine(s);
  }

  /** 333393193 fails: its weighted sum is 171 = 15 * 11 + 6. */
  lemma CheckSumFails(s: string)
    requires s == "333393193"
    ensures !ValidateCheckSum(s)
  {
    WeightedSumOfNine(s);
  }

  /** A weight 1..9 times a non-zero digit difference is never 11 times
      anything: 11 is prime and larger than both factors. */
  lemma {:induction false} ProductNotElevenFold(w: int, d: int, m: int)
    requires 1 <= w <= 9 && -9 <= d <= 9 && d != 0
    ensures w * d != Modulus * m
  {
    if w == 1 {} else if w == 2 {} else if w == 3 {} else if w == 4 {}
    else if w == 5 {} else if w == 6 {} else if w == 7 {} else if w == 8 {}
    else {}
  }

  /** Two different digit values weighted alike by 1..9 never differ by a
      multiple of 11. */
  lemma WeightedDigitsDiffer(w: int, x: int, y: int)
    requires 1 <= w <= 9 && 0 <= x <= 9 && 0 <= y <= 9 && x != y
    ensures (w * x - w * y) % Modulus != 0
  {
    var d := x - y;
    assert w * x - w * y == w * d;
    assert w * d == Modulus * ((w * d) / Modulus) + (w * d) % Modulus;
    ProductNotElevenFold(w, d, (w * d) / Modulus);
  }

  /** Replacing the digit at position i swaps its weighted contribution:
      the weight is |s| - i. */
  lemma {:induction false} WeightedSumUpdate(s: string, i: nat, c: char)
    requires AllDigits(s) && i < |s| && IsDigit(c)
    ensures AllDigits(s[i := c])
    ensures WeightedSum(s[i := c]) + (|s| - i) * DigitValue(s[i]) == WeightedSum(s) + (|s| - i) * DigitValue(c)
  {
    var t := s[i := c];
    assert AllDigits(s[1..]) && AllDigits(t[1..]);
    if i == 0 {
      assert t[1..] == s[1..];
    } else {
      assert t[1..] == s[1..][i - 1 := c];
      WeightedSumUpdate(s[1..], i - 1, c);
      assert |s[1..]| - (i - 1) == |s| - i;
      assert s[1..][i - 1] == s[i];
    }
  }

  /** If a and a + x are both multiples of 11, so is x. */
  lemma MultipleDifference(a: int, x: int)
    requires a % Modulus == 0 && (a + x) % Modulus == 0
    ensures x % Modulus == 0
  {
    var p, q := a / Modulus, (a + x) / Modulus;
    assert a == Modulus * p;
    assert a + x == Modulus * q;
    assert x == Modulus * (q - p);
  }

  /** The checksum catches every single-digit substitution: changing one
      digit of a passing nine-digit account makes it fail. */
  lemma SingleSubstitutionDetected(s: string, i: nat, c: char)
    requires |s| == 9 && AllDigits(s) && i < 9 && IsDigit(c) && c != s[i]
    requires ValidateCheckSum(s)
    ensures !ValidateCheckSum(s[i := c])
  {
    var t := s[i := c];
    var w := 9 - i;
    WeightedSumUpdate(s, i, c);
    WeightedDigitsDiffer(w, DigitValue(c), DigitValue(s[i]));
    if WeightedSum(t) % Modulus == 0 {
      MultipleDifference(WeightedSum(s), w * DigitValue(c) - w * DigitValue(s[i]));
    }
  }
}
