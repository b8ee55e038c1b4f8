// The hidden unlocks (internal/troll/troll.go): digit loops over the printed total and a bit
// trick, against what they say about the number.

module Troll {
  import opened Calendar

  // ----- decimal strings -----

  /** strconv.FormatUint(n, 10). */
  function Decimal(n: nat): (s: string)
    ensures |s| > 0 && AllDigits(s)
  {
    if n < 10 then DigitIsDigit(n); [Digit(n)] else DigitIsDigit(n % 10); Decimal(n / 10) + [Digit(n % 10)]
  }

  predicate AllDigits(s: string) {
    forall i | 0 <= i < |s| :: IsDigit(s[i])
  }

  lemma DigitIsDigit(n: nat)
    requires n < 10
    ensures IsDigit(Digit(n)) && Value(Digit(n)) == n
  {
    DigitValue(n);
  }

  /** The number a string of digits stands for. */
  function Number(s: string): nat
    requires AllDigits(s)
  {
    if s == [] then 0 else 10 * Number(s[..|s| - 1]) + Value(s[|s| - 1])
  }

  lemma {:induction false} NumberOfDecimal(n: nat)
    ensures Number(Decimal(n)) == n
  {
    DigitIsDigit(n % 10);
    if n >= 10 {
      NumberOfDecimal(n / 10);
      assert Decimal(n)[..|Decimal(n)| - 1] == Decimal(n / 10);
    }
  }

  lemma SplitTens(a: nat, c: char, b: nat, d: char)
    requires IsDigit(c) && IsDigit(d) && 10 * a + Value(c) == 10 * b + Value(d)
    ensures a == b && c == d
  {
  }

  /** Strings of one length stand for different numbers. */
  lemma {:induction false} NumberIsOneToOne(s: string, t: string)
    requires AllDigits(s) && AllDigits(t) && |s| == |t| && Number(s) == Number(t)
    ensures s == t
  {
    if s != [] {
      hide Value;
      var n := |s| - 1;
      SplitTens(Number(s[..n]), s[n], Number(t[..n]), t[n]);
      NumberIsOneToOne(s[..n], t[..n]);
      assert s == s[..n] + [s[n]] && t == t[..n] + [t[n]];
    }
  }

  function Reversed(s: string): string {
    if s == [] then [] else [s[|s| - 1]] + Reversed(s[..|s| - 1])
  }

  lemma {:induction false} ReversedAt(s: string)
    ensures |Reversed(s)| == |s|
    ensures forall i | 0 <= i < |s| :: Reversed(s)[i] == s[|s| - 1 - i]
  {
    if s != [] { ReversedAt(s[..|s| - 1]); }
  }

  // ----- palindromes -----

  /** The number with its digits in the opposite order, by arithmetic: the digits of n, last
      first, are appended to those of flipped. */
  function FlipOnto(n: nat, flipped: nat): nat {
    if n < 10 then 10 * flipped + n else FlipOnto(n / 10, 10 * flipped + n % 10)
  }

  function Flip(n: nat): nat {
    FlipOnto(n, 0)
  }

  lemma NumberAppend(s: string, c: char)
    requires AllDigits(s) && IsDigit(c)
    ensures AllDigits(s + [c]) && Number(s + [c]) == 10 * Number(s) + Value(c)
  {
    assert (s + [c])[..|s|] == s;
  }

  lemma {:induction false} FlipIsReversed(n: nat, done: string)
    requires AllDigits(done)
    ensures AllDigits(done + Reversed(Decimal(n)))
    ensures Number(done + Reversed(Decimal(n))) == FlipOnto(n, Number(done))
    decreases n
  {
    var c := Digit(n % 10);
    DigitIsDigit(n % 10);
    NumberAppend(done, c);
    if n < 10 {
      assert Reversed(Decimal(n)) == [c] + Reversed([]);
      assert done + Reversed(Decimal(n)) == done + [c];
    } else {
      FlipIsReversed(n / 10, done + [c]);
      assert Decimal(n)[..|Decimal(n)| - 1] == Decimal(n / 10);
      assert done + Reversed(Decimal(n)) == done + [c] + Reversed(Decimal(n / 10));
    }
  }

  predicate IsMirrored(s: string) {
    forall i | 0 <= i < |s| :: s[i] == s[|s| - 1 - i]
  }

  lemma MirroredIffReversed(s: string)
    ensures IsMirrored(s) <==> Reversed(s) == s
  {
    ReversedAt(s);
    if IsMirrored(s) { assert Reversed(s) == s; }
  }

  /** A total's printed form reads the same both ways exactly when the total is its own flip. */
  lemma MirroredIffFlip(n: nat)
    ensures IsMirrored(Decimal(n)) <==> Flip(n) == n
  {
    var s := Decimal(n);
    var r := Reversed(s);
    MirroredIffReversed(s);
    NumberOfDecimal(n);
    FlipIsNumber(n);
    if Flip(n) == n { NumberIsOneToOne(s, r); }
  }

  lemma FlipIsNumber(n: nat)
    ensures var r := Reversed(Decimal(n));
            AllDigits(r) && |r| == |Decimal(n)| && Number(r) == Flip(n)
  {
    ReversedAt(Decimal(n));
    FlipIsReversed(n, []);
    assert [] + Reversed(Decimal(n)) == Reversed(Decimal(n));
  }

  method IsPalindrome(n: nat) returns (yes: bool)
    ensures yes <==> Flip(n) == n
  {
    MirroredIffFlip(n);
    var s := Decimal(n);
    var i, j := 0, |s| - 1;
    while i < j
      invariant 0 <= i <= |s| && i + j == |s| - 1
      invariant forall k | 0 <= k < i :: s[k] == s[|s| - 1 - k] && s[|s| - 1 - k] == s[k]
      decreases j - i
    {
      if s[i] != s[j] { return false; }
      i, j := i + 1, j - 1;
    }
    forall k | 0 <= k < |s| ensures s[k] == s[|s| - 1 - k] {
      if k > j && k != i {
        assert s[|s| - 1 - k] == s[|s| - 1 - (|s| - 1 - k)];
      }
    }
    return true;
  }

  // ----- repdigits -----

  /** 1, 11, 111, ... */
  function Ones(k: nat): nat {
    if k == 0 then 0 else 10 * Ones(k - 1) + 1
  }

  predicate IsRun(n: nat, d: nat, k: nat) {
    d < 10 && 1 <= k && n == d * Ones(k)
  }

  /** One digit, repeated. */
  ghost predicate Repeats(n: nat) {
    exists d: nat, k: nat :: IsRun(n, d, k)
  }

  predicate SameChars(s: string) {
    forall i | 0 <= i < |s| :: s[i] == s[0]
  }

  lemma {:induction false} SameCharsNumber(s: string)
    requires AllDigits(s) && SameChars(s) && |s| > 0
    ensures Number(s) == Value(s[0]) * Ones(|s|)
  {
    if |s| > 1 { SameCharsNumber(s[..|s| - 1]); }
    else { assert s[..|s| - 1] == []; }
  }

  /** d repeated k times is printed as k times the digit of d; zero as one zero. */
  lemma {:induction false} RepeatsPrinted(d: nat, k: nat)
    requires d < 10 && 1 <= k
    ensures SameChars(Decimal(d * Ones(k))) && Decimal(d * Ones(k))[0] == Digit(d)
  {
    if k > 1 && d > 0 {
      var n := d * Ones(k);
      assert n == 10 * (d * Ones(k - 1)) + d;
      OnesPositive(k - 1, d);
      DivUnique(n, 10, d * Ones(k - 1), d);
      RepeatsPrinted(d, k - 1);
    } else if k == 1 {
      assert Ones(1) == 1 by { assert Ones(0) == 0; }
      assert d * Ones(1) == d;
    } else {
      assert d * Ones(k) == 0;
    }
  }

  lemma OnesPositive(k: nat, d: nat)
    requires 1 <= k && 1 <= d
    ensures d * Ones(k) >= 1
  {
    assert Ones(k) >= 1;
    MulMonotone(1, d, Ones(k));
  }

  lemma SameCharsIffRepeats(n: nat)
    ensures SameChars(Decimal(n)) <==> Repeats(n)
  {
    var s := Decimal(n);
    if SameChars(s) {
      SameCharsNumber(s);
      NumberOfDecimal(n);
      var d := Value(s[0]);
      assert IsRun(n, d, |s|);
    }
    if Repeats(n) {
      var d: nat, k: nat :| IsRun(n, d, k);
      RepeatsPrinted(d, k);
    }
  }

  method IsRepdigit(n: nat) returns (yes: bool)
    ensures yes <==> Repeats(n)
  {
    SameCharsIffRepeats(n);
    var s := Decimal(n);
    var i := 1;
    while i < |s|
      invariant 1 <= i <= |s|
      invariant forall k | 0 <= k < i :: s[k] == s[0]
    {
      if s[i] != s[0] { return false; }
      i := i + 1;
    }
    return true;
  }

  /** A repdigit reads the same both ways. */
  lemma RepdigitIsPalindrome(n: nat)
    requires Repeats(n)
    ensures Flip(n) == n
  {
    SameCharsIffRepeats(n);
    MirroredIffFlip(n);
    var s := Decimal(n);
    forall i | 0 <= i < |s| ensures s[i] == s[|s| - 1 - i] {
      assert s[i] == s[0] && s[|s| - 1 - i] == s[0];
    }
  }

  // ----- powers of two -----

  /** a & b, bit by bit. */
  function And(a: nat, b: nat): nat {
    if a == 0 || b == 0 then 0
    else 2 * And(a / 2, b / 2) + if a % 2 == 1 && b % 2 == 1 then 1 else 0
  }

  function Pow2(k: nat): (p: nat)
    ensures p > 0
  {
    if k == 0 then 1 else 2 * Pow2(k - 1)
  }

  ghost predicate IsPow2(n: nat) {
    exists k: nat :: n == Pow2(k)
  }

  /** n > 0 && n & (n - 1) == 0. */
  predicate IsPowerOfTwo(n: nat) {
    n > 0 && And(n, n - 1) == 0
  }

  lemma {:induction false} AndSelf(n: nat)
    ensures And(n, n) == n
  {
    if n > 0 { AndSelf(n / 2); }
  }

  lemma {:induction false} PowersOfTwo(n: nat)
    ensures IsPowerOfTwo(n) <==> IsPow2(n)
  {
    if n == 0 {
    } else if n == 1 {
      assert And(1, 0) == 0 && Pow2(0) == 1;
    } else if n % 2 == 1 {
      assert (n - 1) / 2 == n / 2;
      AndSelf(n / 2);
      OddIsNotPow2(n);
    } else {
      var h := n / 2;
      assert (n - 1) / 2 == h - 1;
      PowersOfTwo(h);
      DoubleIsPow2(h);
      assert n == 2 * h && (And(n, n - 1) == 0 <==> And(h, h - 1) == 0);
    }
  }

  lemma OddIsNotPow2(n: nat)
    requires n > 1 && n % 2 == 1
    ensures !IsPow2(n)
  {
    forall k: nat ensures n != Pow2(k) {
      if k > 0 { assert Pow2(k) == 2 * Pow2(k - 1); }
    }
  }

  lemma DoubleIsPow2(h: nat)
    requires h > 0
    ensures IsPow2(2 * h) <==> IsPow2(h)
  {
    if IsPow2(h) {
      var k: nat :| h == Pow2(k);
      assert 2 * h == Pow2(k + 1);
    }
    if IsPow2(2 * h) {
      var k: nat :| 2 * h == Pow2(k);
      assert Pow2(0) == 1;
      assert h == Pow2(k - 1);
    }
  }

  // ----- the catalog -----

  /** The unlocks of a total, by what they mean. */
  ghost function OfTotal(total: nat): seq<string> {
    (if total >= 100 && Flip(total) == total then ["palindrome"] else [])
    + (if total >= 1024 && IsPow2(total) then ["power_of_two"] else [])
    + (if total >= 100 && Repeats(total) then ["repdigit"] else [])
  }

  /** The unlocks of a batch that brought the total here. */
  ghost function Hidden(total: nat, now: nat, milestone: bool): seq<string> {
    OfTotal(total)
    + (if MinuteHCM(now) == 20 && HourHCM(now) in {4, 16} then ["clock_420"] else [])
    + (if milestone then ["milestone_second"] else [])
  }

  method EvaluateTotal(total: nat) returns (out: seq<string>)
    ensures out == OfTotal(total)
  {
    out := [];
    if total >= 100 {
      var mirrored := IsPalindrome(total);
      if mirrored { out := out + ["palindrome"]; }
    }
    PowersOfTwo(total);
    if total >= 1024 && IsPowerOfTwo(total) { out := out + ["power_of_two"]; }
    if total >= 100 {
      var repeated := IsRepdigit(total);
      if repeated { out := out + ["repdigit"]; }
    }
  }

  method Evaluate(total: nat, now: nat, milestone: bool) returns (out: seq<string>)
    ensures out == Hidden(total, now, milestone)
  {
    hide OfTotal;
    out := EvaluateTotal(total);
    if MinuteHCM(now) == 20 && (HourHCM(now) == 4 || HourHCM(now) == 16) { out := out + ["clock_420"]; }
    if milestone { out := out + ["milestone_second"]; }
  }
}
