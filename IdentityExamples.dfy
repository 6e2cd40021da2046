/** Concrete inputs of isValidCode and parseInt, worked out from the general lemmas.
    Some examples take their input as a parameter fixed by `requires s == "..."`:
    that keeps the verifier from unfolding parseInt over the literal, and the
    proof goes through the general lemmas instead. */
module IdentityExamples {
  import opened Wrappers
  import opened Identity

  lemma TextOf10000()
    ensures DecimalText(10000) == "10000"
  {
    assert Digits(1) == "1" && Digits(10) == "10" && Digits(100) == "100";
    assert Digits(1000) == "1000";
  }

  lemma TextOf9999()
    ensures DecimalText(9999) == "9999" && DecimalText(99999) == "99999"
  {
    assert Digits(9) == "9" && Digits(99) == "99" && Digits(999) == "999";
  }

  lemma TextOf12345()
    ensures DecimalText(12345) == "12345"
  {
    assert Digits(1) == "1" && Digits(12) == "12" && Digits(123) == "123";
    assert Digits(1234) == "1234";
  }

  /** The lower bound is valid and one digit fewer is not. */
  lemma BoundaryExamples()
    ensures IsValidCode(Str("10000"))
    ensures !IsValidCode(Str("9999"))
    ensures !IsValidCode(Num(100000))
  {
    TextOf10000();
    ValidTextMatchesNumber(10000, "");
    assert DecimalText(10000) + "" == "10000";
    TextOf9999();
    ValidTextMatchesNumber(9999, "");
    assert DecimalText(9999) + "" == "9999";
  }

  /** Trailing garbage is ignored: "99999a" is valid like 99999. */
  lemma TrailingGarbageExample()
    ensures IsValidCode(Str("99999a"))
  {
    TextOf9999();
    ValidTextMatchesNumber(99999, "a");
    assert DecimalText(99999) + "a" == "99999a";
  }

  /** The empty string is NaN to parseInt and so invalid. */
  lemma EmptyIsInvalid()
    ensures !IsValidCode(Str(""))
  {
    NoDigitsInvalid("");
  }

  /** A string of letters only is NaN to parseInt and so invalid. */
  lemma LettersAreInvalid(s: string)
    requires s == "abc"  // the literal as a parameter, so parseInt is not unfolded over it
    ensures !IsValidCode(Str(s))
  {
    assert forall i :: 0 <= i < |s| ==> s[i] == 'a' || s[i] == 'b' || s[i] == 'c';
    NoDigitsInvalid(s);
  }

  /** parseInt skips leading white space and honours a "+" sign. */
  lemma ParseIntPlusExample(s: string)
    requires s == " +12345"  // the literal as a parameter, so parseInt is not unfolded over it
    ensures ParseInt(s) == Some(12345)
  {
    TextOf12345();
    ParseUnsignedOfDigits(12345, "");
    assert Digits(12345) + "" == "12345";
    assert s == [' '] + (['+'] + "12345");
    ParseIntSkipsSpace(' ', ['+'] + "12345");
    ParseIntOfSigned('+', "12345", 12345);
  }

  /** A "-" sign makes the code negative, and so invalid. */
  lemma ParseIntMinusExample()
    ensures ParseInt("-12345") == Some(-12345)
    ensures !IsValidCode(Str("-12345"))
  {
    TextOf12345();
    ParseUnsignedOfDigits(12345, "");
    assert Digits(12345) + "" == "12345";
    assert "-12345" == ['-'] + "12345";
    ParseIntOfSigned('-', "12345", 12345);
  }

  /** The hexadecimal digits "2710" denote 10000. */
  lemma HexDigitsExample(v: string)
    requires v == "2710"  // the literal as a parameter, so the digit reading is not unfolded over it
    ensures ParseDigits(v, 16) == Some(10000)
  {
    DigitPrefixOfAppend(v, "", 16);
    assert v + "" == v && v[..4] == v;
    DigitsValueOfSnoc("", '2', 16);
    DigitsValueOfSnoc("2", '7', 16);
    DigitsValueOfSnoc("27", '1', 16);
    DigitsValueOfSnoc("271", '0', 16);
    assert "" + ['2'] == "2" && "2" + ['7'] == "27" && "27" + ['1'] == "271" && "271" + ['0'] == v;
  }

  /** parseInt reads a "0x" prefix as hexadecimal: "0x2710" is the valid code 10000. */
  lemma ParseIntHexExample(s: string)
    requires s == "0x2710"  // the literal as a parameter, so parseInt is not unfolded over it
    ensures ParseInt(s) == Some(10000)
  {
    assert s == ['0', 'x'] + "2710";
    ParseIntOfHex('x', "2710");
    HexDigitsExample("2710");
  }
}
