/** Concrete claim texts and what `ParseNumber` makes of them: the three
    cases of the unit tests in src/pepemap/mod.rs and the boundary and
    malformed cases the parser's rules decide. Each text is given through
    `Spells`, character by character, rather than as a literal passed to the
    parser: handed a literal, the verifier unfolds trimming, splitting and
    digit parsing over every character at once, which is far more work than
    the case is worth. So the facts about each text (where it has white
    space, where its last dot is, the value of its digits) are gathered in a
    lemma of their own, and general lemmas about the parser turn them into
    the outcome. */
module PepemapCases {
  import opened Wrappers
  import opened Primitives
  import opened RustStr
  import opened Pepemap

  /** `s` is the text `t`, character for character. */
  predicate Spells(s: string, t: string) {
    |s| == |t| && forall i :: 0 <= i < |s| ==> s[i] == t[i]
  }

  function Claim(text: string): Inscription {
    Inscription(Some(Utf8(text)))
  }

  /** Position `k` holds the last dot of `text`. */
  predicate LastDotAt(text: string, k: nat) {
    k < |text| && text[k] == '.' && '.' !in text[k + 1..]
  }

  /** Spelling a text character by character determines it. */
  lemma Spelled(s: string, t: string)
    requires Spells(s, t)
    ensures s == t
  {
  }

  // ---------------------------------------------------------------------------
  // General steps
  // ---------------------------------------------------------------------------

  /** A text with no padding, split at its last dot before a matching
      suffix: the number part decides. */
  lemma TrimmedSplit(text: string, k: nat)
    requires Trimmed(text) && LastDotAt(text, k)
    requires EqIgnoreAsciiCase(text[k + 1..], SuffixStem())
    ensures ParseNumber(Claim(text)) == ParseNumberPart(text[..k])
  {
    TrimOfTrimmed(text);
    SplitAtLastDot(text, k);
  }

  /** A text with no padding whose last dot is followed by anything else. */
  lemma TrimmedSplitMismatch(text: string, k: nat)
    requires Trimmed(text) && LastDotAt(text, k)
    requires !EqIgnoreAsciiCase(text[k + 1..], SuffixStem())
    ensures ParseNumber(Claim(text)) == None
  {
    TrimOfTrimmed(text);
    SplitAtLastDot(text, k);
  }

  /** A number part that is a bare run of digits. */
  lemma DigitsPart(ds: string)
    requires ds != [] && AllDigits(ds)
    ensures var v := DigitsValue(ds);
            ParseNumberPart(ds) == if 1 <= v <= MAX_NUMBER as int then Some(v as u32) else None
  {
    assert Trimmed(ds);
    TrimOfTrimmed(ds);
    assert UnsignedDigits(ds) == ds;
  }

  /** A bare run of digits followed by a matching suffix. */
  lemma DigitsClaim(text: string, k: nat)
    requires Trimmed(text) && LastDotAt(text, k)
    requires EqIgnoreAsciiCase(text[k + 1..], SuffixStem())
    requires text[..k] != [] && AllDigits(text[..k])
    ensures var v := DigitsValue(text[..k]);
            ParseNumber(Claim(text)) == if 1 <= v <= MAX_NUMBER as int then Some(v as u32) else None
  {
    TrimmedSplit(text, k);
    DigitsPart(text[..k]);
  }

  /** A number part that does not start with a digit or `+`, or holds a
      character other than a digit after that, is not a `u32`. */
  lemma NotANumeral(part: string, bad: nat)
    requires Trimmed(part) && part != [] && bad < |part|
    requires !IsAsciiDigit(part[bad]) && (bad == 0 ==> part[0] != '+')
    ensures ParseNumberPart(part) == None
  {
    TrimOfTrimmed(part);
    var ds := UnsignedDigits(part);
    if part[0] == '+' {
      assert ds[bad - 1] == part[bad];
    } else {
      assert ds[bad] == part[bad];
    }
  }

  /** The upper-case suffix matches. */
  lemma UpperStem()
    ensures EqIgnoreAsciiCase("PEPEMAP", SuffixStem())
  {
    assert EqIgnoreAsciiCase("PEPEMAP", "pepemap");
  }

  // ---------------------------------------------------------------------------
  // The unit tests of src/pepemap/mod.rs
  // ---------------------------------------------------------------------------

  /** The shape of `123.PEPEMAP`. */
  lemma Facts123(text: string)
    requires Spells(text, "123.PEPEMAP")
    ensures Trimmed(text) && LastDotAt(text, 3) && EqIgnoreAsciiCase(text[4..], SuffixStem())
    ensures text[..3] != [] && AllDigits(text[..3]) && DigitsValue(text[..3]) == 123
  {
    Spelled(text, "123.PEPEMAP");
    UpperStem();
    assert text[4..] == "PEPEMAP";
    assert text[..3] == "123";
    assert DigitsValue("123") == 123;
  }

  /** The suffix is compared ignoring ASCII case. */
  lemma UppercaseSuffixAccepted(text: string)
    requires Spells(text, "123.PEPEMAP")
    ensures ParseNumber(Claim(text)) == Some(123)
  {
    Facts123(text);
    DigitsClaim(text, 3);
  }

  /** The padding of ` 456 .pepemap \n` around its body. */
  lemma Facts456Padding(text: string) returns (w1: string, body: string, w2: string)
    requires Spells(text, " 456 .pepemap \n")
    ensures text == w1 + body + w2 && AllWhitespace(w1) && AllWhitespace(w2)
    ensures Spells(body, "456 .pepemap")
  {
    Spelled(text, " 456 .pepemap \n");
    w1, body, w2 := " ", "456 .pepemap", " \n";
  }

  /** The shape of `456 .pepemap`, with its number part `456 ` cut into
      digits and padding. */
  lemma Facts456Body(body: string) returns (digits: string, pad: string)
    requires Spells(body, "456 .pepemap")
    ensures Trimmed(body) && LastDotAt(body, 4) && EqIgnoreAsciiCase(body[5..], SuffixStem())
    // The number part `456 ` in the form `NumberPaddingIgnored` takes:
    // no leading padding, the digits, then the trailing padding.
    ensures body[..4] == [] + digits + pad && AllWhitespace(pad)
    ensures digits != [] && AllDigits(digits) && DigitsValue(digits) == 456
  {
    Spelled(body, "456 .pepemap");
    digits, pad := "456", " ";
    assert body[5..] == SuffixStem();
  }

  /** Whitespace around the whole body and around the number is ignored. */
  lemma SurroundingWhitespaceIgnored(text: string)
    requires Spells(text, " 456 .pepemap \n")
    ensures ParseNumber(Claim(text)) == Some(456)
  {
    var w1, body, w2 := Facts456Padding(text);
    BodyPaddingIgnored(w1, body, w2);
    var digits, pad := Facts456Body(body);
    TrimmedSplit(body, 4);
    NumberPaddingIgnored([], digits, pad);
    DigitsPart(digits);
  }

  /** The shape of `789.invalid`. */
  lemma Facts789(text: string)
    requires Spells(text, "789.invalid")
    ensures Trimmed(text) && LastDotAt(text, 3) && !EqIgnoreAsciiCase(text[4..], SuffixStem())
  {
    Spelled(text, "789.invalid");
    assert text[4..][0] == 'i';
    assert ToAsciiLowercase('i') != SuffixStem()[0];
  }

  /** Any other suffix is rejected. */
  lemma OtherSuffixRejected(text: string)
    requires Spells(text, "789.invalid")
    ensures ParseNumber(Claim(text)) == None
  {
    Facts789(text);
    TrimmedSplitMismatch(text, 3);
  }

  // ---------------------------------------------------------------------------
  // Further cases the parser's rules decide
  // ---------------------------------------------------------------------------

  /** The shape of `007.pepemap`. */
  lemma Facts007(text: string)
    requires Spells(text, "007.pepemap")
    ensures Trimmed(text) && LastDotAt(text, 3) && EqIgnoreAsciiCase(text[4..], SuffixStem())
    ensures text[..3] != [] && AllDigits(text[..3]) && DigitsValue(text[..3]) == 7
  {
    Spelled(text, "007.pepemap");
    assert text[4..] == SuffixStem();
    assert text[..3] == "007";
    assert DigitsValue("007") == 7;
  }

  /** Leading zeros are accepted, as `u32::from_str` accepts them. */
  lemma LeadingZerosAccepted(text: string)
    requires Spells(text, "007.pepemap")
    ensures ParseNumber(Claim(text)) == Some(7)
  {
    Facts007(text);
    DigitsClaim(text, 3);
  }

  /** The shape of `5000000.pepemap`. */
  lemma Facts5000000(text: string)
    requires Spells(text, "5000000.pepemap")
    ensures Trimmed(text) && LastDotAt(text, 7) && EqIgnoreAsciiCase(text[8..], SuffixStem())
    ensures text[..7] != [] && AllDigits(text[..7]) && DigitsValue(text[..7]) == 5_000_000
  {
    Spelled(text, "5000000.pepemap");
    assert text[8..] == SuffixStem();
    assert text[..7] == "5000000";
    assert DigitsValue("5000000") == 5_000_000;
  }

  /** The top of the range is accepted. */
  lemma TopAccepted(text: string)
    requires Spells(text, "5000000.pepemap")
    ensures ParseNumber(Claim(text)) == Some(5_000_000)
  {
    Facts5000000(text);
    DigitsClaim(text, 7);
  }

  /** The shape of `5000001.pepemap`. */
  lemma Facts5000001(text: string)
    requires Spells(text, "5000001.pepemap")
    ensures Trimmed(text) && LastDotAt(text, 7) && EqIgnoreAsciiCase(text[8..], SuffixStem())
    ensures text[..7] != [] && AllDigits(text[..7]) && DigitsValue(text[..7]) == 5_000_001
  {
    Spelled(text, "5000001.pepemap");
    assert text[8..] == SuffixStem();
    assert text[..7] == "5000001";
    assert DigitsValue("5000001") == 5_000_001;
  }

  /** The number after the top of the range is rejected. */
  lemma AboveTopRejected(text: string)
    requires Spells(text, "5000001.pepemap")
    ensures ParseNumber(Claim(text)) == None
  {
    Facts5000001(text);
    DigitsClaim(text, 7);
  }

  /** The shape of `0.pepemap`. */
  lemma Facts0(text: string)
    requires Spells(text, "0.pepemap")
    ensures Trimmed(text) && LastDotAt(text, 1) && EqIgnoreAsciiCase(text[2..], SuffixStem())
    ensures text[..1] != [] && AllDigits(text[..1]) && DigitsValue(text[..1]) == 0
  {
    Spelled(text, "0.pepemap");
    assert text[2..] == SuffixStem();
    assert text[..1] == "0";
    assert DigitsValue("0") == 0;
  }

  /** Zero is outside the range. */
  lemma ZeroRejected(text: string)
    requires Spells(text, "0.pepemap")
    ensures ParseNumber(Claim(text)) == None
  {
    Facts0(text);
    DigitsClaim(text, 1);
  }

  /** The shape of `.pepemap`. */
  lemma FactsEmptyNumber(text: string)
    requires Spells(text, ".pepemap")
    ensures Trimmed(text) && LastDotAt(text, 0) && EqIgnoreAsciiCase(text[1..], SuffixStem())
    ensures text[..0] == []
  {
    Spelled(text, ".pepemap");
    assert text[1..] == SuffixStem();
  }

  /** An empty number part is rejected. */
  lemma EmptyNumberRejected(text: string)
    requires Spells(text, ".pepemap")
    ensures ParseNumber(Claim(text)) == None
  {
    FactsEmptyNumber(text);
    TrimmedSplit(text, 0);
    TrimOfTrimmed([]);
  }

  /** The shape of `1.2.pepemap`. */
  lemma FactsSecondDot(text: string)
    requires Spells(text, "1.2.pepemap")
    ensures Trimmed(text) && LastDotAt(text, 3) && EqIgnoreAsciiCase(text[4..], SuffixStem())
    ensures var part := text[..3]; Trimmed(part) && part != [] && !IsAsciiDigit(part[1])
  {
    Spelled(text, "1.2.pepemap");
    assert text[4..] == SuffixStem();
    assert text[..3] == "1.2";
  }

  /** A second dot stays in the number part, where it is not a digit. */
  lemma SecondDotRejected(text: string)
    requires Spells(text, "1.2.pepemap")
    ensures ParseNumber(Claim(text)) == None
  {
    FactsSecondDot(text);
    TrimmedSplit(text, 3);
    NotANumeral(text[..3], 1);
  }

  /** The shape of `-5.pepemap`. */
  lemma FactsMinus(text: string)
    requires Spells(text, "-5.pepemap")
    ensures Trimmed(text) && LastDotAt(text, 2) && EqIgnoreAsciiCase(text[3..], SuffixStem())
    ensures var part := text[..2]; Trimmed(part) && part != [] && !IsAsciiDigit(part[0]) && part[0] != '+'
  {
    Spelled(text, "-5.pepemap");
    assert text[3..] == SuffixStem();
    assert text[..2] == "-5";
  }

  /** A minus sign is not accepted for an unsigned number. */
  lemma MinusSignRejected(text: string)
    requires Spells(text, "-5.pepemap")
    ensures ParseNumber(Claim(text)) == None
  {
    FactsMinus(text);
    TrimmedSplit(text, 2);
    NotANumeral(text[..2], 0);
  }

  /** The shape of `+5.pepemap`. */
  lemma FactsPlus(text: string)
    requires Spells(text, "+5.pepemap")
    ensures Trimmed(text) && LastDotAt(text, 2) && EqIgnoreAsciiCase(text[3..], SuffixStem())
    // The number part `+5` in the form `NumberPartAccepted` takes: the
    // sign, the digits and an empty trailing padding.
    ensures var part := text[..2];
            && part == part[..1] + part[1..] + [] && part[..1] == "+"
            && part[1..] != [] && AllDigits(part[1..]) && DigitsValue(part[1..]) == 5
  {
    Spelled(text, "+5.pepemap");
    assert text[3..] == SuffixStem();
    assert text[..2][..1] == "+" && text[..2][1..] == "5";
    assert DigitsValue("5") == 5;
  }

  /** A single `+` in front of the digits is accepted, as `u32::from_str`
      accepts it. */
  lemma PlusSignAccepted(text: string)
    requires Spells(text, "+5.pepemap")
    ensures ParseNumber(Claim(text)) == Some(5)
  {
    FactsPlus(text);
    TrimmedSplit(text, 2);
    var part := text[..2];
    NumberPartAccepted(part[..1], part[1..], []);
  }

  /** The shapes of a blank text and of a text without a dot. */
  lemma FactsNotClaim(blank: string, plain: string)
    requires Spells(blank, " \t\n") && Spells(plain, "42")
    // The blank text as `TrimPadded` takes it: all padding around an
    // empty text.
    ensures AllWhitespace(blank) && blank + [] + [] == blank
    ensures Trimmed(plain) && '.' !in plain
  {
    Spelled(blank, " \t\n");
    Spelled(plain, "42");
  }

  /** Blank and dot-free bodies, absent bodies and bodies that are not
      UTF-8 are not claims. */
  lemma NotClaimText(blank: string, plain: string)
    requires Spells(blank, " \t\n") && Spells(plain, "42")
    ensures ParseNumber(Claim(blank)) == None
    ensures ParseNumber(Claim(plain)) == None
    ensures ParseNumber(Inscription(None)) == None
    ensures ParseNumber(Inscription(Some(NotUtf8))) == None
  {
    FactsNotClaim(blank, plain);
    TrimPadded(blank, [], []);
    TrimOfTrimmed(plain);
  }
}
