/** Claim declarations: the `<number>.pepemap` text format, its parser, and
    the record stored for each claimed number (src/pepemap/mod.rs). */
module Pepemap {
  import opened Wrappers
  import opened Primitives
  import opened RustStr

  /** The claim suffix, with its leading dot. */
  const SUFFIX: string := ".pepemap"

  /** Largest claimable number; the claim universe is 1..=MAX_NUMBER. */
  const MAX_NUMBER: u32 := 5_000_000

  /** The suffix compared against the text after the last dot. */
  function SuffixStem(): (r: string)
    ensures r == "pepemap"
  {
    var stem := SUFFIX[1..];
    assert stem == "pepemap";
    assert TrimStartMatches(stem, '.') == stem;
    TrimStartMatches(SUFFIX, '.')
  }

  /** A transaction id (a 32-byte hash). */
  datatype Txid = Txid(hash: seq<bv8>)

  /** An inscription is named by the transaction that reveals it and its
      index among that transaction's inscriptions. */
  datatype InscriptionId = InscriptionId(txid: Txid, index: u32)

  /** The record stored for a claimed number. `number` and `inscriptionId`
      are fixed at creation; the rest follow the latest change of owner. */
  datatype Entry = Entry(
    number: u32,
    inscriptionId: InscriptionId,
    txid: Txid,
    owner: string,
    blockHeight: u32,
    blockTime: u32
  )

  /** The raw body of an inscription, seen only through whether it decodes
      as UTF-8 and, if it does, the text it decodes to. */
  datatype Body = Utf8(text: string) | NotUtf8

  /** The part of an inscription the claim parser looks at. */
  datatype Inscription = Inscription(body: Option<Body>)

  /** Decides whether an inscription declares a claim and, if so, which
      number. Absent, non-UTF-8 and malformed bodies are not claims. */
  function ParseNumber(inscription: Inscription): (r: Option<u32>)
    ensures r.Some? ==> 1 <= r.value <= MAX_NUMBER
    ensures r.Some? ==> inscription.body.Some? && inscription.body.value.Utf8?
  {
    match inscription.body
    case None => None
    case Some(NotUtf8) => None
    case Some(Utf8(text)) => ParseClaimText(text)
  }

  /** The decoded-text part of `ParseNumber`: trim, split at the last dot,
      check the suffix, then read the number part. */
  function ParseClaimText(text: string): (r: Option<u32>)
    ensures r.Some? ==> 1 <= r.value <= MAX_NUMBER
    ensures r.Some? ==> '.' in Trim(text)
  {
    var body := Trim(text);
    if body == [] then None
    else
      match RSplitOnce(body, '.')
      case None => None
      case Some((numberPart, suffix)) =>
        if EqIgnoreAsciiCase(suffix, SuffixStem()) then ParseNumberPart(numberPart) else None
  }

  /** The text before the last dot, trimmed, read as a `u32` in 1..=MAX_NUMBER. */
  function ParseNumberPart(numberPart: string): (r: Option<u32>)
    ensures r.Some? ==> 1 <= r.value <= MAX_NUMBER
    ensures var t := Trim(numberPart);
            r.Some? <==> IsU32Literal(t) && 1 <= DigitsValue(UnsignedDigits(t)) <= MAX_NUMBER as int
    ensures r.Some? ==> r.value as int == DigitsValue(UnsignedDigits(Trim(numberPart)))
  {
    var numberText := Trim(numberPart);
    if numberText == [] then None
    else
      match FromStrU32(numberText)
      case None => None
      case Some(number) =>
        if number == 0 || number > MAX_NUMBER then None else Some(number)
  }

  /** The text of a claim, cut into the pieces the parser distinguishes:
      padding, an optional `+`, decimal digits, padding, the dot, a
      case-insensitive `pepemap`, padding. */
  predicate ClaimPieces(w1: string, sign: string, digits: string, w2: string, stem: string, w3: string) {
    && AllWhitespace(w1) && AllWhitespace(w2) && AllWhitespace(w3)
    && (sign == "" || sign == "+")
    && digits != [] && AllDigits(digits)
    && EqIgnoreAsciiCase(stem, SuffixStem())
  }

  /** The pieces put back together, grouped the way the parser takes them
      apart: padding around the trimmed body, the body split at its dot. */
  function ClaimText(w1: string, sign: string, digits: string, w2: string, stem: string, w3: string): string {
    w1 + (sign + digits + w2 + ['.'] + stem) + w3
  }

  /** The stem is seven lower-case ASCII letters. */
  lemma LowercaseStem()
    ensures |SuffixStem()| == 7
    ensures forall i :: 0 <= i < 7 ==> 'a' <= SuffixStem()[i] <= 'z'
  {
  }

  /** A character whose ASCII lower case is a lower-case letter is a letter. */
  lemma AsciiLetter(c: char, l: char)
    requires 'a' <= l <= 'z' && ToAsciiLowercase(c) == l
    ensures !IsWhitespace(c) && c != '.'
  {
  }

  /** A character that matches a letter of the stem ignoring ASCII case is
      an ASCII letter: neither whitespace nor a dot. */
  lemma StemLetters(stem: string)
    requires EqIgnoreAsciiCase(stem, SuffixStem())
    ensures |stem| == 7
    ensures forall i :: 0 <= i < |stem| ==> !IsWhitespace(stem[i]) && stem[i] != '.'
  {
    LowercaseStem();
    forall i | 0 <= i < |stem|
      ensures !IsWhitespace(stem[i]) && stem[i] != '.'
    {
      AsciiLetter(stem[i], SuffixStem()[i]);
    }
  }

  /** A number part of the form optional `+`, digits, padding is read as its
      digits' value when that lies in 1..=MAX_NUMBER. (Padding in front is
      already gone when the parser reaches the number part of a claim.) */
  lemma NumberPartAccepted(sign: string, digits: string, w2: string)
    requires AllWhitespace(w2) && (sign == "" || sign == "+")
    requires digits != [] && AllDigits(digits)
    ensures var v := DigitsValue(digits);
            ParseNumberPart(sign + digits + w2) == if 1 <= v <= MAX_NUMBER as int then Some(v as u32) else None
  {
    var numeral := sign + digits;
    assert numeral[0] == '+' || IsAsciiDigit(numeral[0]);
    assert numeral[|numeral| - 1] == digits[|digits| - 1];
    TrimTrailing(numeral, w2);
    FromStrU32OfNumeral(sign, digits);
  }

  /** Every number part `ParseNumberPart` accepts has that form. */
  lemma NumberPartShape(numberPart: string, n: u32)
    returns (w1: string, sign: string, digits: string, w2: string)
    requires ParseNumberPart(numberPart) == Some(n)
    ensures AllWhitespace(w1) && AllWhitespace(w2) && (sign == "" || sign == "+")
    ensures digits != [] && AllDigits(digits) && DigitsValue(digits) == n as int
    ensures numberPart == w1 + (sign + digits) + w2
  {
    var numeral := Trim(numberPart);
    assert IsU32Literal(numeral) && DigitsValue(UnsignedDigits(numeral)) == n as int;
    w1, w2 := TrimPadding(numberPart);
    sign := U32LiteralPieces(numeral);
    digits := UnsignedDigits(numeral);
  }

  /** Once the trimmed text is split at its last dot and the suffix matches,
      the outcome is that of the number part. */
  lemma ClaimTextFromSplit(text: string, numberPart: string, stem: string)
    requires Trim(text) == numberPart + ['.'] + stem
    requires '.' !in stem && EqIgnoreAsciiCase(stem, SuffixStem())
    ensures ParseClaimText(text) == ParseNumberPart(numberPart)
  {
    RSplitOnceUnique(numberPart, '.', stem);
  }

  /** Splitting at a dot of the trimmed text that no later dot follows
      decides the claim: the suffix after it must match, and then the
      outcome is that of the number part before it. */
  lemma SplitAtLastDot(text: string, k: nat)
    requires var body := Trim(text); k < |body| && body[k] == '.' && '.' !in body[k + 1..]
    ensures var body := Trim(text);
            ParseNumber(Inscription(Some(Utf8(text))))
            == if EqIgnoreAsciiCase(body[k + 1..], SuffixStem()) then ParseNumberPart(body[..k]) else None
  {
    RSplitOnceAt(Trim(text), '.', k);
  }

  /** Whitespace around the whole body does not change the outcome. */
  lemma BodyPaddingIgnored(w1: string, text: string, w2: string)
    requires AllWhitespace(w1) && AllWhitespace(w2)
    ensures ParseNumber(Inscription(Some(Utf8(w1 + text + w2)))) == ParseNumber(Inscription(Some(Utf8(text))))
  {
    TrimOfPadded(w1, text, w2);
  }

  /** Whitespace around the number part does not change the outcome. */
  lemma NumberPaddingIgnored(w1: string, numberPart: string, w2: string)
    requires AllWhitespace(w1) && AllWhitespace(w2)
    ensures ParseNumberPart(w1 + numberPart + w2) == ParseNumberPart(numberPart)
  {
    TrimOfPadded(w1, numberPart, w2);
  }

  /** Trimming a claim text leaves exactly its body `<number part>.<stem>`. */
  lemma ClaimTextTrimmed(w1: string, sign: string, digits: string, w2: string, stem: string, w3: string)
    requires ClaimPieces(w1, sign, digits, w2, stem, w3)
    ensures Trim(ClaimText(w1, sign, digits, w2, stem, w3)) == sign + digits + w2 + ['.'] + stem
  {
    StemLetters(stem);
    var numberPart := sign + digits + w2;
    var body := numberPart + ['.'] + stem;
    assert body[0] == numberPart[0] == (sign + digits)[0];
    assert body[|body| - 1] == stem[6];
    TrimPadded(w1, body, w3);
  }

  /** A text of the claim shape is decided by its number part. */
  lemma ClaimTextSplits(w1: string, sign: string, digits: string, w2: string, stem: string, w3: string)
    requires ClaimPieces(w1, sign, digits, w2, stem, w3)
    ensures ParseClaimText(ClaimText(w1, sign, digits, w2, stem, w3)) == ParseNumberPart(sign + digits + w2)
  {
    ClaimTextTrimmed(w1, sign, digits, w2, stem, w3);
    StemLetters(stem);
    ClaimTextFromSplit(ClaimText(w1, sign, digits, w2, stem, w3), sign + digits + w2, stem);
  }

  /** Every text of the claim shape is parsed to its digits' value when that
      value is in 1..=MAX_NUMBER, and rejected otherwise. */
  lemma ClaimTextAccepted(w1: string, sign: string, digits: string, w2: string, stem: string, w3: string)
    requires ClaimPieces(w1, sign, digits, w2, stem, w3)
    ensures var v := DigitsValue(digits);
            ParseNumber(Inscription(Some(Utf8(ClaimText(w1, sign, digits, w2, stem, w3)))))
            == if 1 <= v <= MAX_NUMBER as int then Some(v as u32) else None
  {
    ClaimTextSplits(w1, sign, digits, w2, stem, w3);
    NumberPartAccepted(sign, digits, w2);
  }

  /** An accepted text trims to a number part the parser accepts, a dot,
      and a matching suffix. */
  lemma AcceptedBody(text: string, n: u32) returns (numberPart: string, stem: string)
    requires ParseNumber(Inscription(Some(Utf8(text)))) == Some(n)
    ensures Trim(text) == numberPart + ['.'] + stem
    ensures EqIgnoreAsciiCase(stem, SuffixStem()) && ParseNumberPart(numberPart) == Some(n)
  {
    var split := RSplitOnce(Trim(text), '.');
    numberPart, stem := split.value.0, split.value.1;
  }

  /** The pieces of a claim text, regrouped from the way `ClaimTextShape`
      finds them to the way `ClaimText` puts them together. */
  lemma Regroup(lead: string, w1: string, numeral: string, w2: string, stem: string, w3: string)
    ensures lead + (w1 + numeral + w2 + ['.'] + stem) + w3 == (lead + w1) + (numeral + w2 + ['.'] + stem) + w3
  {
    var p := numeral + w2;
    ConcatAssoc(w1, numeral, w2);
    ConcatAssoc(w1, p, ['.']);
    ConcatAssoc(w1, p + ['.'], stem);
    ConcatAssoc(lead, w1, p + ['.'] + stem);
  }

  /** Conversely, every accepted text has the claim shape, with the accepted
      number as its digits' value. */
  lemma ClaimTextShape(text: string, n: u32)
    returns (w1: string, sign: string, digits: string, w2: string, stem: string, w3: string)
    requires ParseNumber(Inscription(Some(Utf8(text)))) == Some(n)
    ensures ClaimPieces(w1, sign, digits, w2, stem, w3)
    ensures text == ClaimText(w1, sign, digits, w2, stem, w3)
    ensures DigitsValue(digits) == n as int && 1 <= n <= MAX_NUMBER
  {
    var numberPart;
    numberPart, stem := AcceptedBody(text, n);
    var lead, w1';
    lead, w3 := TrimPadding(text);
    w1', sign, digits, w2 := NumberPartShape(numberPart, n);
    Regroup(lead, w1', sign + digits, w2, stem, w3);
    w1 := lead + w1';
    AllWhitespaceConcat(lead, w1');
  }
}
