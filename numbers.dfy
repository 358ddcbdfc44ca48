/**
 * The parts of JavaScript's number conversions that the interpreter relies on:
 * `Number(text)` applied to the text of a numeral (the parser uses it to turn a
 * Number token into a value, and the loose comparisons use it to coerce strings),
 * and `String(number)` (used when `+` joins a number and a string).
 * Numbers are modelled as exact reals, not IEEE-754 doubles.
 */
module Numbers {
  import opened Wrappers

  predicate IsDigit(c: char) {
    '0' <= c <= '9'
  }

  function DigitValue(c: char): (d: nat)
    requires IsDigit(c)
    ensures d < 10
  {
    (c as int) - ('0' as int)
  }

  function DigitChar(d: nat): (c: char)
    requires d < 10
    ensures IsDigit(c) && DigitValue(c) == d
  {
    ('0' as int + d) as char
  }

  /**
   * The characters ECMAScript's StringToNumber ignores around a numeral: the
   * WhiteSpace and LineTerminator code points (TAB, LF, VT, FF, CR, SPACE, NBSP,
   * the Zs space separators, LS, PS and the byte-order mark).
   */
  predicate IsJsWhitespace(c: char) {
    || c == '\t' || c == '\n' || c == '\U{0B}' || c == '\U{0C}' || c == '\r' || c == ' '
    || c == '\U{A0}' || c == '\U{1680}' || ('\U{2000}' <= c <= '\U{200A}')
    || c == '\U{2028}' || c == '\U{2029}' || c == '\U{202F}' || c == '\U{205F}'
    || c == '\U{3000}' || c == '\U{FEFF}'
  }

  predicate AllDigits(s: string) {
    forall k :: 0 <= k < |s| ==> IsDigit(s[k])
  }

  /** The value of a string of decimal digits, most significant first. */
  function DigitsValue(s: string): nat
    requires AllDigits(s)
  {
    if s == [] then 0 else DigitsValue(s[..|s| - 1]) * 10 + DigitValue(s[|s| - 1])
  }

  function Pow10(n: nat): (p: nat)
    ensures p >= 1
  {
    if n == 0 then 1 else 10 * Pow10(n - 1)
  }

  /** The text of a string with the JavaScript whitespace at both ends removed. */
  function Trim(s: string): (t: string)
    ensures |t| <= |s|
    ensures t != [] ==> !IsJsWhitespace(t[0]) && !IsJsWhitespace(t[|t| - 1])
    ensures forall c :: c in s && !IsJsWhitespace(c) ==> c in t
    ensures forall c :: c in t ==> c in s
  {
    if s == [] then s
    else if IsJsWhitespace(s[0]) then Trim(s[1..])
    else if IsJsWhitespace(s[|s| - 1]) then Trim(s[..|s| - 1])
    else s
  }

  /** `t` is the slice `s[i..j]`, and everything of `s` outside it is whitespace. */
  predicate TrimmedAt(s: string, t: string, i: nat, j: nat) {
    i <= j <= |s| && t == s[i..j]
    && (forall k :: 0 <= k < i ==> IsJsWhitespace(s[k]))
    && (forall k :: j <= k < |s| ==> IsJsWhitespace(s[k]))
  }

  /** Trimming removes whitespace at the two ends and nothing else: the result is a slice of the input. */
  lemma {:induction false} TrimSlice(s: string)
    ensures exists i: nat, j: nat :: TrimmedAt(s, Trim(s), i, j)
  {
    if s == [] {
      assert TrimmedAt(s, Trim(s), 0, 0);
    } else if IsJsWhitespace(s[0]) {
      TrimSlice(s[1..]);
      var i: nat, j: nat :| TrimmedAt(s[1..], Trim(s[1..]), i, j);
      TrimmedAfterFront(s, Trim(s), i, j);
    } else if IsJsWhitespace(s[|s| - 1]) {
      TrimSlice(s[..|s| - 1]);
      var i: nat, j: nat :| TrimmedAt(s[..|s| - 1], Trim(s[..|s| - 1]), i, j);
      TrimmedAfterBack(s, Trim(s), i, j);
    } else {
      assert s[0..|s|] == s;
      assert TrimmedAt(s, Trim(s), 0, |s|);
    }
  }

  /** A slice of `s[1..]` after a leading whitespace character is a slice of `s`. */
  lemma TrimmedAfterFront(s: string, t: string, i: nat, j: nat)
    requires s != [] && IsJsWhitespace(s[0]) && TrimmedAt(s[1..], t, i, j)
    ensures TrimmedAt(s, t, i + 1, j + 1)
  {
    assert s[1..][i..j] == s[i + 1..j + 1];
    forall k | 0 <= k < i + 1 ensures IsJsWhitespace(s[k]) {
      if k > 0 { assert s[k] == s[1..][k - 1]; }
    }
    forall k | j + 1 <= k < |s| ensures IsJsWhitespace(s[k]) {
      assert s[k] == s[1..][k - 1];
    }
  }

  /** A slice of `s[..|s| - 1]` before a trailing whitespace character is a slice of `s`. */
  lemma TrimmedAfterBack(s: string, t: string, i: nat, j: nat)
    requires s != [] && IsJsWhitespace(s[|s| - 1]) && TrimmedAt(s[..|s| - 1], t, i, j)
    ensures TrimmedAt(s, t, i, j)
  {
    assert s[..|s| - 1][i..j] == s[i..j];
    forall k | 0 <= k < i ensures IsJsWhitespace(s[k]) {
      assert s[k] == s[..|s| - 1][k];
    }
    forall k | j <= k < |s| ensures IsJsWhitespace(s[k]) {
      if k < |s| - 1 { assert s[k] == s[..|s| - 1][k]; }
    }
  }

  /** The index of the first '.' of `s`, if any. */
  function DotIndex(s: string): (r: Option<nat>)
    ensures r.Some? ==> r.value < |s| && s[r.value] == '.' && '.' !in s[..r.value]
    ensures r.None? ==> '.' !in s
  {
    if s == [] then None
    else if s[0] == '.' then Some(0)
    else match DotIndex(s[1..])
      case None => None
      case Some(k) => assert s[1..][..k] == s[1..k + 1]; Some(k + 1)
  }

  /** The value of the digits after a '.': their whole value over ten per digit. */
  function FractionValue(digits: string): real
    requires AllDigits(digits)
  {
    DigitsValue(digits) as real / Pow10(|digits|) as real
  }

  /**
   * An unsigned decimal literal `ddd`, `ddd.`, `ddd.ddd` or `.ddd` (at least one
   * digit); exponents, signs, `Infinity` and hexadecimal forms are not modelled
   * and give None, as malformed text does.
   */
  function DecimalValue(t: string): Option<real> {
    match DotIndex(t)
    case None =>
      if t != [] && AllDigits(t) then Some(DigitsValue(t) as real) else None
    case Some(k) =>
      var whole, frac := t[..k], t[k + 1..];
      if AllDigits(whole) && AllDigits(frac) && |whole| + |frac| >= 1
      then Some(DigitsValue(whole) as real + FractionValue(frac))
      else None
  }

  /** After a run of digits, the first '.' is the one that ends it. */
  lemma {:induction false} DotAfterDigits(w: string, f: string)
    requires AllDigits(w)
    ensures DotIndex(w + "." + f) == Some(|w|)
    ensures (w + "." + f)[..|w|] == w && (w + "." + f)[|w| + 1..] == f
    decreases |w|
  {
    var t := w + "." + f;
    if w != [] {
      assert IsDigit(w[0]);
      assert t[1..] == w[1..] + "." + f;
      DotAfterDigits(w[1..], f);
    }
  }

  /** `w.f` over two digit strings, not both empty, reads as the whole part plus the fraction. */
  lemma DecimalValueParts(w: string, f: string)
    requires AllDigits(w) && AllDigits(f) && |w| + |f| >= 1
    ensures DecimalValue(w + "." + f) == Some(DigitsValue(w) as real + FractionValue(f))
  {
    DotAfterDigits(w, f);
    DecimalValueAt(w + "." + f, |w|, w, f);
  }

  /** A text whose first '.' sits between two digit strings reads as their parts. */
  lemma DecimalValueAt(t: string, k: nat, w: string, f: string)
    requires DotIndex(t) == Some(k) && t[..k] == w && t[k + 1..] == f
    requires AllDigits(w) && AllDigits(f) && |w| + |f| >= 1
    ensures DecimalValue(t) == Some(DigitsValue(w) as real + FractionValue(f))
  {
  }

  /** A second '.' makes the text NaN, and so does a '.' with no digit beside it. */
  lemma DecimalValueRejects(w: string, f: string)
    requires AllDigits(w)
    ensures '.' in f ==> DecimalValue(w + "." + f) == None
    ensures DecimalValue(".") == None
  {
    DotAfterDigits(w, f);
    DotAfterDigits("", "");
    if '.' in f {
      var k :| 0 <= k < |f| && f[k] == '.';
      assert !IsDigit(f[k]);
    }
  }

  /**
   * `Number(text)`: surrounding whitespace is ignored, all-whitespace text is 0,
   * and None stands for NaN.
   */
  function NumeralValue(text: string): Option<real> {
    var t := Trim(text);
    if t == [] then Some(0.0) else DecimalValue(t)
  }

  /** The decimal numeral of a natural number, without leading zeros. */
  function NatText(n: nat): (s: string)
    ensures s != [] && AllDigits(s)
    ensures DigitsValue(s) == n
  {
    if n < 10 then [DigitChar(n)]
    else
      var s := NatText(n / 10) + [DigitChar(n % 10)];
      assert s[..|s| - 1] == NatText(n / 10);
      s
  }

  /** The first `n` decimal digits of a fraction in [0, 1), stopping early when it is exhausted. */
  function FractionDigits(f: real, n: nat): (s: string)
    requires 0.0 <= f < 1.0
    ensures |s| <= n && AllDigits(s)
    decreases n
  {
    if n == 0 || f == 0.0 then ""
    else
      var d := (f * 10.0).Floor;
      assert 0 <= d < 10;
      [DigitChar(d)] + FractionDigits(f * 10.0 - d as real, n - 1)
  }

  /** A leading digit is worth its value times the power of ten of the digits after it. */
  lemma {:induction false} DigitsValueCons(c: char, s: string)
    requires IsDigit(c) && AllDigits(s)
    ensures AllDigits([c] + s)
    ensures DigitsValue([c] + s) == DigitValue(c) * Pow10(|s|) + DigitsValue(s)
    decreases |s|
  {
    var cs := [c] + s;
    AllDigitsCons(c, s);
    if s != [] {
      var init := s[..|s| - 1];
      assert cs[..|cs| - 1] == [c] + init;
      assert cs[|cs| - 1] == s[|s| - 1];
      DigitsValueCons(c, init);
      ShiftDigit(DigitValue(c), Pow10(|init|), DigitsValue(init), DigitValue(s[|s| - 1]));
    }
  }

  lemma AllDigitsCons(c: char, s: string)
    requires IsDigit(c) && AllDigits(s)
    ensures AllDigits([c] + s)
  {
    var cs := [c] + s;
    forall k | 0 <= k < |cs| ensures IsDigit(cs[k]) {
      if k > 0 { assert cs[k] == s[k - 1]; }
    }
  }

  /** Appending a digit to `a` followed by `b` shifts both by one place. */
  lemma ShiftDigit(a: int, p: int, b: int, d: int)
    ensures (a * p + b) * 10 + d == a * (p * 10) + (b * 10 + d)
  {
  }

  /** `f` multiplied by ten `k` times. */
  function Scaled(f: real, k: nat): real
    decreases k
  {
    if k == 0 then f else Scaled(10.0 * f, k - 1)
  }

  /** Scaling distributes over a sum. */
  lemma {:induction false} ScaledSum(x: real, y: real, k: nat)
    ensures Scaled(x + y, k) == Scaled(x, k) + Scaled(y, k)
    decreases k
  {
    if k > 0 {
      assert 10.0 * (x + y) == 10.0 * x + 10.0 * y;
      ScaledSum(10.0 * x, 10.0 * y, k - 1);
    }
  }

  /** A whole number scaled `k` times is that number times `Pow10(k)`. */
  lemma {:induction false} ScaledNat(x: nat, k: nat)
    ensures Scaled(x as real, k) == (x * Pow10(k)) as real
    decreases k
  {
    if k > 0 {
      ScaledNat(10 * x, k - 1);
      assert 10 * x * Pow10(k - 1) == x * Pow10(k);
    }
  }

  /**
   * The digits are the leading decimal digits of the fraction: read as a
   * whole number they are `f` scaled by ten per digit, rounded down, and
   * exactly that when they stop before `n` digits.
   */
  lemma {:induction false} FractionDigitsValue(f: real, n: nat)
    requires 0.0 <= f < 1.0
    ensures var s := FractionDigits(f, n);
      DigitsValue(s) as real <= Scaled(f, |s|) < (DigitsValue(s) + 1) as real
    ensures var s := FractionDigits(f, n);
      |s| < n ==> DigitsValue(s) as real == Scaled(f, |s|)
    decreases n
  {
    if n != 0 && f != 0.0 {
      var d, g := FractionStep(f, n);
      var rest := FractionDigits(g, n - 1);
      FractionDigitsValue(g, n - 1);
      DigitsValueCons(DigitChar(d), rest);
      var m := |rest|;
      assert Scaled(f, m + 1) == Scaled(d as real + g, m);
      ScaledSum(d as real, g, m);
      ScaledNat(d, m);
    }
  }

  /** The first digit of a non-zero fraction and the fraction left after it. */
  lemma FractionStep(f: real, n: nat) returns (d: nat, g: real)
    requires 0.0 <= f < 1.0 && n != 0 && f != 0.0
    ensures d < 10 && 0.0 <= g < 1.0 && f * 10.0 == d as real + g
    ensures FractionDigits(f, n) == [DigitChar(d)] + FractionDigits(g, n - 1)
  {
    d := (f * 10.0).Floor;
    g := f * 10.0 - d as real;
  }

  /**
   * `String(number)`: an integral value prints as its decimal numeral; a
   * fractional part prints after a '.', truncated to 16 digits.
   */
  function NumberText(r: real): string {
    if r < 0.0 then "-" + UnsignedText(-r) else UnsignedText(r)
  }

  function UnsignedText(r: real): string
    requires r >= 0.0
  {
    var whole := r.Floor;
    var frac := r - whole as real;
    NatText(whole) + (if frac == 0.0 then "" else "." + FractionDigits(frac, 16))
  }

  /** `Number(String(n)) == n` for every whole number a numeral can denote. */
  lemma NatTextRoundTrip(n: nat)
    ensures NumeralValue(NatText(n)) == Some(n as real)
    ensures NumberText(n as real) == NatText(n)
  {
    var s := NatText(n);
    assert forall k :: 0 <= k < |s| ==> !IsJsWhitespace(s[k]);
    assert Trim(s) == s;
  }
}
