/**
 * Laws of the JavaScript operators the evaluator applies: which operand
 * types each arithmetic operator accepts, the order `<` and `>` induce, the
 * symmetry of loose equality, and the list of falsy values.
 */
module ValueProps {
  import opened Wrappers
  import Numbers
  import opened Values

  // ------------------------------------------------------------ arithmetic

  /** `+` is defined exactly on numbers and strings, and concatenates once a string is involved. */
  lemma PlusDefinedIff(a: Value, b: Value)
    ensures Plus(a, b) != Undef <==> IsNumOrStr(a) && IsNumOrStr(b)
    ensures Plus(a, b).Str? <==> IsNumOrStr(a) && IsNumOrStr(b) && (a.Str? || b.Str?)
    ensures a.Str? && b.Str? ==> Plus(a, b) == Str(a.s + b.s)
  {
  }

  /** `- * /` are defined only on two numbers (and `/` not by zero). */
  lemma NumericOperatorsNeedNumbers(op: string, a: Value, b: Value)
    requires op in {"-", "*", "/"}
    ensures Arith(op, a, b) != Undef <==> a.Num? && b.Num? && (op == "/" ==> b.n != 0.0)
    ensures Arith(op, a, b) != Undef ==> Arith(op, a, b).Num?
  {
  }

  /** An operator outside `+ - * /` always yields undefined. */
  lemma OtherOperatorUndefined(op: string, a: Value, b: Value)
    requires op !in {"+", "-", "*", "/"}
    ensures Arith(op, a, b) == Undef
  {
  }

  /** Every whole number below 2^53 is a double, so JavaScript holds it exactly. */
  const ExactLimit: nat := 0x20_0000_0000_0000

  /** `+` with a string on either side renders an exactly held whole number as its numeral. */
  lemma PlusRendersNumeral(n: nat, s: string)
    requires n < ExactLimit
    ensures Plus(Num(n as real), Str(s)) == Str(Numbers.NatText(n) + s)
    ensures Plus(Str(s), Num(n as real)) == Str(s + Numbers.NatText(n))
  {
    Numbers.NatTextRoundTrip(n);
  }

  /** Mixed `+` is not associative: `(1 + 2) + "a"` is "3a" but `1 + (2 + "a")` is "12a". */
  lemma MixedPlusNotAssociative()
    ensures Plus(Plus(Num(1.0), Num(2.0)), Str("a")) == Str("3a")
    ensures Plus(Num(1.0), Plus(Num(2.0), Str("a"))) == Str("12a")
  {
    assert Plus(Num(1.0), Num(2.0)) == Num(3.0);
    PlusRendersNumeral(3, "a");
    PlusRendersNumeral(2, "a");
    PlusRendersNumeral(1, "2a");
    assert Numbers.NatText(1) == "1";
    assert Numbers.NatText(2) == "2";
    assert Numbers.NatText(3) == "3";
  }

  // ------------------------------------------------------------ truthiness

  /** The falsy values of the model: 0, the empty string, false, undefined and null. */
  lemma FalsyValues(v: Value)
    ensures !Truthy(v) <==> v in {Num(0.0), Str(""), Bool(false), Undef, Null}
  {
  }

  // ------------------------------------------------------------ ordering

  lemma {:induction false} StringLessIrreflexive(a: string)
    ensures !StringLess(a, a)
  {
    if a != [] {
      StringLessIrreflexive(a[1..]);
    }
  }

  lemma {:induction false} StringLessTransitive(a: string, b: string, c: string)
    requires StringLess(a, b) && StringLess(b, c)
    ensures StringLess(a, c)
  {
    if a != [] && a[0] == b[0] && b[0] == c[0] {
      StringLessTransitive(a[1..], b[1..], c[1..]);
    }
  }

  /** Two different strings are ordered one way or the other. */
  lemma {:induction false} StringLessTotal(a: string, b: string)
    requires a != b
    ensures StringLess(a, b) || StringLess(b, a)
  {
    if a != [] && b != [] && a[0] == b[0] {
      assert a == [a[0]] + a[1..] && b == [b[0]] + b[1..];
      StringLessTotal(a[1..], b[1..]);
    }
  }

  /** `<` never holds both ways, nor between a value and itself. */
  lemma LessAsymmetric(a: Value, b: Value)
    ensures !Less(a, a)
    ensures Less(a, b) ==> !Less(b, a)
  {
    if a.Str? {
      StringLessIrreflexive(a.s);
      if b.Str? && StringLess(a.s, b.s) && StringLess(b.s, a.s) {
        StringLessTransitive(a.s, b.s, a.s);
      }
    }
  }

  /** `>` is `<` with the operands swapped; two strings are ordered exactly when they differ. */
  lemma GreaterIsSwappedLess(a: Value, b: Value)
    ensures Compare(">", a, b) == Compare("<", b, a)
    ensures a.Str? && b.Str? ==> (a != b <==> Less(a, b) || Greater(a, b))
  {
    if a.Str? && b.Str? {
      if a != b {
        StringLessTotal(a.s, b.s);
      } else {
        StringLessIrreflexive(a.s);
      }
    }
  }

  /** Undefined compares false with everything, because it coerces to NaN. */
  lemma UndefinedIncomparable(v: Value)
    ensures !Less(Undef, v) && !Less(v, Undef)
  {
  }

  // ------------------------------------------------------------ equality

  /** Loose equality is symmetric and reflexive. */
  lemma LooseEqSymmetric(a: Value, b: Value)
    ensures LooseEq(a, b) == LooseEq(b, a)
    ensures LooseEq(a, a)
  {
    if a.Bool? && !b.Bool? {
      assert LooseEq(a, b) == LooseEq(Num(ToNumber(a).value), b);
      assert LooseEq(b, a) == LooseEq(b, Num(ToNumber(a).value));
    } else if b.Bool? && !a.Bool? {
      assert LooseEq(b, a) == LooseEq(Num(ToNumber(b).value), a);
      assert LooseEq(a, b) == LooseEq(a, Num(ToNumber(b).value));
    }
  }

  /** A number equals its own numeral loosely, and `true` equals 1 and "1". */
  lemma LooseEqCoerces(n: nat)
    ensures LooseEq(Num(n as real), Str(Numbers.NatText(n)))
    ensures LooseEq(Bool(true), Num(1.0)) && LooseEq(Bool(true), Str("1"))
    ensures !LooseEq(Undef, Num(0.0)) && LooseEq(Undef, Null)
  {
    Numbers.NatTextRoundTrip(n);
    Numbers.NatTextRoundTrip(1);
    assert Numbers.NatText(1) == "1";
  }

  // ------------------------------------------------------------ coercion

  /**
   * ToNumber: a numeral reads as its number and blank text as 0, booleans
   * and null read as 0 or 1, and undefined and a word read as NaN.
   */
  lemma ToNumberCoerces(n: nat)
    ensures ToNumber(Str(Numbers.NatText(n))) == Some(n as real)
    ensures ToNumber(Str("")) == Some(0.0) && ToNumber(Str(" \n")) == Some(0.0)
    ensures ToNumber(Bool(true)) == Some(1.0) && ToNumber(Bool(false)) == Some(0.0)
    ensures ToNumber(Null) == Some(0.0)
    ensures ToNumber(Undef) == None && ToNumber(Str("a")) == None
  {
    Numbers.NatTextRoundTrip(n);
    assert Numbers.Trim(" \n") == "";
    assert Numbers.Trim("a") == "a";
  }

  /** A numeral against a number compares as a number, on either side of `<`. */
  lemma NumeralComparesAsNumber(a: nat, b: nat)
    requires a < ExactLimit && b < ExactLimit
    ensures Less(Str(Numbers.NatText(a)), Num(b as real)) <==> a < b
    ensures Less(Num(a as real), Str(Numbers.NatText(b))) <==> a < b
  {
    Numbers.NatTextRoundTrip(a);
    Numbers.NatTextRoundTrip(b);
  }

  /**
   * Signed numerals read as NaN in this model: `-5` prints as "-5", yet
   * "-5" neither equals -5 loosely nor compares below 3.
   */
  lemma SignedNumeralIsNaN()
    ensures Numbers.NumberText(-5.0) == "-5"
    ensures ToNumber(Str("-5")) == None
    ensures !LooseEq(Num(-5.0), Str("-5")) && !Less(Str("-5"), Num(3.0))
  {
    Numbers.NatTextRoundTrip(5);
    assert Numbers.NatText(5) == "5";
    assert Numbers.Trim("-5") == "-5";
    assert Numbers.DotIndex("-5") == None;
    assert !Numbers.IsDigit('-');
  }

  /** Two numerals compare as text: "10" < "9", although 10 < 9 is false. */
  lemma NumeralsCompareAsText()
    ensures Less(Str("10"), Str("9")) && !Less(Num(10.0), Num(9.0))
  {
  }

  /** A comparison yields a boolean exactly for `>`, `<` and `==`, and null otherwise. */
  lemma CompareYieldsBoolean(op: string, a: Value, b: Value)
    ensures Compare(op, a, b).Bool? <==> op in {">", "<", "=="}
    ensures !Compare(op, a, b).Bool? ==> Compare(op, a, b) == Null
  {
  }
}
