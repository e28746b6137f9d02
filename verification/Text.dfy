/** Strings as the repository uses them: decimal numerals inside file names, the
    last occurrence of a substring, and the split of a name before its extension. */
module Text {

  datatype Option<+T> = None | Some(value: T)

  predicate IsDigit(c: char) {
    '0' <= c <= '9'
  }

  /** The decimal numeral an f-string writes for a non-negative integer. */
  function Digits(n: nat): (s: string)
    ensures s != [] && forall k :: 0 <= k < |s| ==> IsDigit(s[k])
  {
    if n < 10 then ["0123456789"[n]] else Digits(n / 10) + ["0123456789"[n % 10]]
  }

  function Pow10(n: nat): (p: nat)
    ensures p >= 1
  {
    if n == 0 then 1 else 10 * Pow10(n - 1)
  }

  /** A numeral of a given width can only name numbers below that power of ten. */
  lemma {:induction false} DigitsBelowPower(n: nat)
    ensures n < Pow10(|Digits(n)|)
  {
    if n >= 10 {
      DigitsBelowPower(n / 10);
    }
  }

  lemma {:induction false} PowerMonotone(a: nat, b: nat)
    requires a <= b
    ensures Pow10(a) <= Pow10(b)
  {
    if a < b {
      PowerMonotone(a, b - 1);
    }
  }

  lemma {:induction false} DigitsShort(n: nat)
    ensures |Digits(n)| <= n + 1
  {
    if n >= 10 {
      DigitsShort(n / 10);
    }
  }

  lemma {:induction false} DigitsInjective(a: nat, b: nat)
    requires Digits(a) == Digits(b)
    ensures a == b
  {
    var s, t := Digits(a), Digits(b);
    assert s[|s| - 1] == "0123456789"[a % 10] && t[|t| - 1] == "0123456789"[b % 10];
    if a >= 10 && b >= 10 {
      assert Digits(a / 10) == s[..|s| - 1] && Digits(b / 10) == t[..|t| - 1];
      DigitsInjective(a / 10, b / 10);
    }
  }

  /** Where a numeral ends is visible when the next character is not a digit. */
  lemma NumeralThenText(a: nat, x: string, b: nat, y: string)
    requires x != [] && !IsDigit(x[0])
    requires y != [] && !IsDigit(y[0])
    requires Digits(a) + x == Digits(b) + y
    ensures a == b && x == y
  {
    var s, t, w := Digits(a), Digits(b), Digits(a) + x;
    assert w[|s|] == x[0] && w[|t|] == y[0];
    assert forall k :: 0 <= k < |s| ==> w[k] == s[k] && IsDigit(w[k]);
    assert forall k :: 0 <= k < |t| ==> w[k] == t[k] && IsDigit(w[k]);
    assert |s| == |t|;
    assert s == w[..|s|] == t;
    assert x == w[|s|..] == y;
    DigitsInjective(a, b);
  }

  predicate OccursAt(s: string, pattern: string, at: nat) {
    at + |pattern| <= |s| && s[at..at + |pattern|] == pattern
  }

  lemma OccursOne(s: string, c: char, at: nat)
    ensures OccursAt(s, [c], at) <==> at < |s| && s[at] == c
  {
    if at < |s| {
      assert s[at..at + 1] == [s[at]];
    }
  }

  /** `s.rfind(pattern)`: the last place `pattern` occurs, or -1. */
  function RFind(s: string, pattern: string): (at: int)
    ensures -1 <= at <= |s|
    ensures at >= 0 ==> OccursAt(s, pattern, at)
    ensures forall k: nat :: at < k ==> !OccursAt(s, pattern, k)
  {
    RFindFrom(s, pattern, |s|)
  }

  function RFindFrom(s: string, pattern: string, from: nat): (at: int)
    requires from <= |s|
    ensures -1 <= at <= from
    ensures at >= 0 ==> OccursAt(s, pattern, at)
    ensures forall k: nat :: at < k <= from ==> !OccursAt(s, pattern, k)
  {
    if OccursAt(s, pattern, from) then from
    else if from == 0 then -1
    else RFindFrom(s, pattern, from - 1)
  }

  predicate EndsWith(s: string, suffix: string) {
    |suffix| <= |s| && s[|s| - |suffix|..] == suffix
  }

  lemma NoDotAfterLast(name: string)
    ensures forall k :: RFind(name, ".") < k < |name| ==> name[k] != '.'
    ensures RFind(name, ".") >= 0 ==> RFind(name, ".") < |name| && name[RFind(name, ".")] == '.'
  {
    assert "." == ['.'];
    forall k: nat {
      OccursOne(name, '.', k);
    }
    forall k | RFind(name, ".") < k < |name| ensures name[k] != '.' {
      assert !OccursAt(name, ".", k);
    }
  }

  /** `os.path.splitext` on a bare name: the extension starts at the last dot, unless
      only dots stand before it. */
  function SplitExt(name: string): (r: (string, string))
    ensures r.0 + r.1 == name
    ensures r.1 != "" ==> r.1[0] == '.' && '.' !in r.1[1..]
  {
    NoDotAfterLast(name);
    var dot := RFind(name, ".");
    if dot > 0 && (exists k :: 0 <= k < dot && name[k] != '.') then (name[..dot], name[dot..])
    else (name, "")
  }

  /** Dots that only dots stand before do not start an extension. */
  ghost predicate OnlyLeadingDots(name: string) {
    forall k, d :: 0 <= k < d < |name| && name[d] == '.' ==> name[k] == '.'
  }

  /** Both results of the split, by the form of the name. */
  lemma SplitExtOf(stem: string, extension: string)
    ensures (exists k :: 0 <= k < |stem| && stem[k] != '.')
            && extension != "" && extension[0] == '.' && '.' !in extension[1..]
            ==> SplitExt(stem + extension) == (stem, extension)
    ensures OnlyLeadingDots(stem) ==> SplitExt(stem) == (stem, "")
  {
    NoDotAfterLast(stem);
    if k :| 0 <= k < |stem| && stem[k] != '.' && extension != "" && extension[0] == '.' && '.' !in extension[1..] {
      var name, dot := stem + extension, RFind(stem + extension, ".");
      NoDotAfterLast(name);
      assert name[|stem|] == '.' && name[k] == stem[k];
      assert forall d :: |stem| < d < |name| ==> name[d] == extension[1..][d - |stem| - 1];
      assert name[..|stem|] == stem && name[|stem|..] == extension;
    }
  }

  /** The number a numeral stands for. */
  function NumeralValue(s: string): nat
    requires forall k :: 0 <= k < |s| ==> IsDigit(s[k])
  {
    if s == "" then 0
    else
      assert IsDigit(s[|s| - 1]);
      10 * NumeralValue(s[..|s| - 1]) + (s[|s| - 1] as int - '0' as int)
  }

  /** `Digits` is the decimal numeral of its argument, without leading zeros. */
  lemma {:induction false} DigitsMean(n: nat)
    ensures NumeralValue(Digits(n)) == n
    ensures n > 0 ==> Digits(n)[0] != '0'
    ensures n < 10 ==> |Digits(n)| == 1
  {
    var s := Digits(n);
    if n >= 10 {
      DigitsMean(n / 10);
      assert s[..|s| - 1] == Digits(n / 10);
    }
  }
}
