/** Random payloads per symbology.  The page draws with `Math.random()`;
    here the draws are an input: alphabet indices in [0, 36) for the
    alphanumeric builder and digits in [0, 10) for the digit builder, one
    draw per character.  Given the draws, every builder is deterministic. */
module RandomValues {
  import opened Text
  import opened CodeTypes
  import opened CheckDigit
  import opened Validation

  /** The 36 characters `getRandomAlphaNum` picks from. */
  const Alphabet: string := "ABCDEFGHIJKLMNOPQRSTUVWXYZ0123456789"

  predicate IsUpperAlphaNum(c: char) {
    'A' <= c <= 'Z' || IsDigit(c)
  }

  predicate AreAlphabetIndices(draws: seq<nat>) {
    forall i | 0 <= i < |draws| :: draws[i] < |Alphabet|
  }

  /** The string spelled by a sequence of alphabet indices. */
  function AlphaNumFrom(draws: seq<nat>): (s: string)
    requires AreAlphabetIndices(draws)
    ensures |s| == |draws|
    ensures forall i | 0 <= i < |s| :: IsUpperAlphaNum(s[i])
  {
    AlphabetIsUpperAlphaNum();
    seq(|draws|, i requires 0 <= i < |draws| => Alphabet[draws[i]])
  }

  lemma AlphabetIsUpperAlphaNum()
    ensures forall k | 0 <= k < |Alphabet| :: IsUpperAlphaNum(Alphabet[k])
  {
    AlphabetLayout();
  }

  /** Where a character sits in the alphabet: letters first, then digits. */
  function AlphabetIndex(c: char): (k: nat)
    requires IsUpperAlphaNum(c)
    ensures k < |Alphabet| && Alphabet[k] == c
  {
    AlphabetLayout();
    if 'A' <= c <= 'Z' then c as int - 'A' as int else 26 + (c as int - '0' as int)
  }

  lemma AlphabetLayout()
    ensures |Alphabet| == 36
    ensures forall k | 0 <= k < 26 :: Alphabet[k] == ('A' as int + k) as char
    ensures forall k | 26 <= k < 36 :: Alphabet[k] == ('0' as int + (k - 26)) as char
  {
  }

  /** Every string over `A-Z0-9` is what some draws produce: the builder can
      reach each of the 36^n strings of length n. */
  lemma {:induction false} AlphaNumFromCovers(s: string)
    requires forall i | 0 <= i < |s| :: IsUpperAlphaNum(s[i])
    ensures var draws := seq(|s|, i requires 0 <= i < |s| => AlphabetIndex(s[i]));
            AreAlphabetIndices(draws) && AlphaNumFrom(draws) == s
  {
  }

  /** `getRandomAlphaNum(length)`: one alphabet character per draw. */
  method RandomAlphaNum(length: nat, draws: seq<nat>) returns (result: string)
    requires |draws| == length && AreAlphabetIndices(draws)
    ensures result == AlphaNumFrom(draws)
    ensures |result| == length && forall i | 0 <= i < length :: IsUpperAlphaNum(result[i])
  {
    result := "";
    for i := 0 to length
      invariant result == AlphaNumFrom(draws[..i])
    {
      result := result + [Alphabet[draws[i]]];
    }
    assert draws[..length] == draws;
  }

  /** `getRandomDigits(length)`: one digit character per draw. */
  method RandomDigits(length: nat, draws: seq<nat>) returns (result: string)
    requires |draws| == length && AreDigits(draws)
    ensures result == DigitString(draws)
    ensures |result| == length && AllDigits(result) && DigitsOf(result) == draws
  {
    result := "";
    for i := 0 to length
      invariant result == DigitString(draws[..i])
    {
      result := result + [DigitChar(draws[i])];
    }
    assert draws[..length] == draws;
  }

  /** A base followed by the digit the page computes from its positional
      sums: weight 3 on the odd positions for an odd-length base, on the even
      positions for an even-length one.  That digit is the GS1 check digit,
      and the string is the base's digits followed by it. */
  lemma CompletedBase(draws: seq<nat>, checkDigit: nat)
    requires AreDigits(draws)
    requires checkDigit == CheckDigitFor(if |draws| % 2 == 1 then SumOdd(draws) * 3 + SumEven(draws)
                                         else SumOdd(draws) + SumEven(draws) * 3)
    ensures checkDigit == Gs1CheckDigit(draws)
    ensures var code := DigitString(draws) + [DigitChar(checkDigit)];
            |code| == |draws| + 1 && AllDigits(code) && code[..|draws|] == DigitString(draws)
            && DigitsOf(code) == draws + [Gs1CheckDigit(draws)]
  {
    assert checkDigit == Gs1CheckDigit(draws) by {
      PositionalSumsAreGs1(draws);
    }
    AppendDigit(draws, checkDigit);
  }

  /** `generateUpcA`: eleven random digits, then the check digit that makes
      three times the odd-position sum plus the even-position sum a multiple
      of ten.  That is the GS1 check digit of the base. */
  method GenerateUpcA(draws: seq<nat>) returns (code: string)
    requires |draws| == 11 && AreDigits(draws)
    ensures |code| == 12 && AllDigits(code) && code[..11] == DigitString(draws)
    ensures (3 * SumOdd(draws) + SumEven(draws) + DigitsOf(code)[11]) % 10 == 0
    ensures DigitsOf(code) == draws + [Gs1CheckDigit(draws)]
  {
    var base := RandomDigits(11, draws);
    var digits := DigitsOf(base);
    var sumOdd, sumEven := 0, 0;
    for index := 0 to |digits|
      invariant sumOdd == SumOdd(digits[..index]) && sumEven == SumEven(digits[..index])
    {
      SumsStep(digits, index);
      var pos := index + 1;
      if pos % 2 == 1 {
        sumOdd := sumOdd + digits[index];
      } else {
        sumEven := sumEven + digits[index];
      }
    }
    assert digits[..|digits|] == digits;
    var total := sumOdd * 3 + sumEven;
    var checkDigit := (10 - total % 10) % 10;
    code := base + [DigitChar(checkDigit)];
    CompletedBase(draws, checkDigit);
  }

  /** `generateEan13`: twelve random digits, then the check digit that makes
      the odd-position sum plus three times the even-position sum a multiple
      of ten.  That is the GS1 check digit of the base. */
  method GenerateEan13(draws: seq<nat>) returns (code: string)
    requires |draws| == 12 && AreDigits(draws)
    ensures |code| == 13 && AllDigits(code) && code[..12] == DigitString(draws)
    ensures (SumOdd(draws) + 3 * SumEven(draws) + DigitsOf(code)[12]) % 10 == 0
    ensures DigitsOf(code) == draws + [Gs1CheckDigit(draws)]
  {
    var base := RandomDigits(12, draws);
    var digits := DigitsOf(base);
    var sumOdd, sumEven := 0, 0;
    for index := 0 to |digits|
      invariant sumOdd == SumOdd(digits[..index]) && sumEven == SumEven(digits[..index])
    {
      SumsStep(digits, index);
      var pos := index + 1;
      if pos % 2 == 0 {
        sumEven := sumEven + digits[index];
      } else {
        sumOdd := sumOdd + digits[index];
      }
    }
    assert digits[..|digits|] == digits;
    var total := sumOdd + sumEven * 3;
    var checkDigit := (10 - total % 10) % 10;
    code := base + [DigitChar(checkDigit)];
    CompletedBase(draws, checkDigit);
  }

  /** `generateEan8`: seven random digits, then the check digit that makes
      three times the odd-position sum plus the even-position sum a multiple
      of ten.  That is the GS1 check digit of the base. */
  method GenerateEan8(draws: seq<nat>) returns (code: string)
    requires |draws| == 7 && AreDigits(draws)
    ensures |code| == 8 && AllDigits(code) && code[..7] == DigitString(draws)
    ensures (3 * SumOdd(draws) + SumEven(draws) + DigitsOf(code)[7]) % 10 == 0
    ensures DigitsOf(code) == draws + [Gs1CheckDigit(draws)]
  {
    var base := RandomDigits(7, draws);
    var digits := DigitsOf(base);
    var sumOdd, sumEven := 0, 0;
    for index := 0 to |digits|
      invariant sumOdd == SumOdd(digits[..index]) && sumEven == SumEven(digits[..index])
    {
      SumsStep(digits, index);
      var pos := index + 1;
      if pos % 2 == 1 {
        sumOdd := sumOdd + digits[index];
      } else {
        sumEven := sumEven + digits[index];
      }
    }
    assert digits[..|digits|] == digits;
    var total := sumOdd * 3 + sumEven;
    var checkDigit := (10 - total % 10) % 10;
    code := base + [DigitChar(checkDigit)];
    CompletedBase(draws, checkDigit);
  }

  /** How many draws `generateRandomValueByType` makes for a symbology. */
  function DrawCount(t: CodeType): nat {
    match t
    case EAN13 => 12
    case EAN8 => 7
    case UPC => 11
    case CODE39 => 10
    case CODE128 | QRCODE => 12
  }

  /** Draws a symbology's generator can receive: digits for the numeric
      symbologies, alphabet indices for the others, as many as it makes. */
  predicate ValidDraws(t: CodeType, draws: seq<nat>) {
    |draws| == DrawCount(t)
    && if IsNumeric(t) then AreDigits(draws) else AreAlphabetIndices(draws)
  }

  /** The value generated for a symbology from its draws: for EAN-13, EAN-8
      and UPC-A the base completed with its GS1 check digit, for the others
      the alphanumeric string. */
  function RandomValue(t: CodeType, draws: seq<nat>): string
    requires ValidDraws(t, draws)
  {
    if IsNumeric(t) then DigitString(draws + [Gs1CheckDigit(draws)]) else AlphaNumFrom(draws)
  }

  /** Every generated value is accepted by the validator for its own
      symbology, has that symbology's length, and for the numeric ones
      carries a correct GS1 check digit. */
  lemma RandomValueAccepted(t: CodeType, draws: seq<nat>)
    requires ValidDraws(t, draws)
    ensures Validate(t, RandomValue(t, draws)) == None
    ensures |RandomValue(t, draws)| == (if t == CODE39 then 10 else if t == EAN8 then 8
                                        else if t == EAN13 then 13 else 12)
    ensures IsNumeric(t) ==> Gs1Valid(DigitsOf(RandomValue(t, draws)))
  {
    var v := RandomValue(t, draws);
    assert v != [] && !IsWhitespace(v[0]) && !IsWhitespace(v[|v| - 1]);
    TrimmedIsFixpoint(v);
    if IsNumeric(t) {
      Gs1ValidIffCheckDigit(draws, Gs1CheckDigit(draws));
    }
  }

  /** `generateRandomValueByType`: dispatches on the symbology; what it
      returns is RandomValue, which RandomValueAccepted shows the validator
      accepts. */
  method GenerateRandomValueByType(t: CodeType, draws: seq<nat>) returns (value: string)
    requires ValidDraws(t, draws)
    ensures value == RandomValue(t, draws)
  {
    match t {
      case EAN13 => value := GenerateEan13(draws);
      case EAN8 => value := GenerateEan8(draws);
      case UPC => value := GenerateUpcA(draws);
      case CODE39 => value := RandomAlphaNum(10, draws);
      case CODE128 | QRCODE => value := RandomAlphaNum(12, draws);
    }
  }
}
