/** `validateValueByType`: the shape rules a content line must meet for its
    symbology.  The value is trimmed first; an empty value is refused before
    any symbology rule is looked at. */
module Validation {
  import opened Text
  import opened CodeTypes
  import CheckDigit

  /** Why a value was refused; ReasonText gives the message the page shows. */
  datatype Reason = EmptyContent | NotEan13 | NotEan8 | NotUpcA | NotCode39 | TooLong

  function ReasonText(r: Reason): string {
    match r
    case EmptyContent => "内容不能为空"
    case NotEan13 => "EAN-13 条码必须是 13 位数字"
    case NotEan8 => "EAN-8 条码必须是 8 位数字"
    case NotUpcA => "UPC-A 条码必须是 12 位数字"
    case NotCode39 => "Code39 仅支持大写字母、数字及 - . 空格 $ / + % 等字符"
    case TooLong => "内容过长，请控制在 256 个字符以内"
  }

  /** Each refusal has its own message: two reasons show the same text
      exactly when they are the same reason. */
  lemma ReasonTextDistinct(a: Reason, b: Reason)
    ensures ReasonText(a) == ReasonText(b) <==> a == b
  {
  }

  /** Longest value accepted for CODE128 and QR codes. */
  const MaxContentLength: nat := 256

  /** The symbologies whose values are all digits. */
  predicate IsNumeric(t: CodeType) {
    t == EAN13 || t == EAN8 || t == UPC
  }

  /** The number of digits of a full EAN-13, EAN-8 or UPC-A value. */
  function DigitLength(t: CodeType): nat
    requires IsNumeric(t)
  {
    match t
    case EAN13 => 13
    case EAN8 => 8
    case UPC => 12
  }

  /** The character class `[0-9A-Z.$/+% -]`: the 43 Code 39 data characters,
      without the `*` start/stop character. */
  predicate IsCode39Char(c: char) {
    IsDigit(c) || 'A' <= c <= 'Z' || c == '.' || c == '$' || c == '/'
    || c == '+' || c == '%' || c == ' ' || c == '-'
  }

  /** `validateValueByType(type, rawValue)`: None stands for the source's
      `null` (accepted), Some(reason) for the message it returns. */
  function Validate(t: CodeType, raw: string): Option<Reason> {
    var value := Trim(raw);
    if value == [] then Some(EmptyContent)
    else
      match t
      case EAN13 => if |value| == 13 && AllDigits(value) then None else Some(NotEan13)
      case EAN8 => if |value| == 8 && AllDigits(value) then None else Some(NotEan8)
      case UPC => if |value| == 12 && AllDigits(value) then None else Some(NotUpcA)
      case CODE39 =>
        if forall i | 0 <= i < |value| :: IsCode39Char(value[i]) then None else Some(NotCode39)
      case CODE128 | QRCODE => if |value| > MaxContentLength then Some(TooLong) else None
  }

  /** Blank input is refused with the empty-content message whatever the
      symbology, and that is the only way to get that message. */
  lemma BlankRejectedFirst(t: CodeType, raw: string)
    ensures Validate(t, raw) == Some(EmptyContent)
            <==> forall i | 0 <= i < |raw| :: IsWhitespace(raw[i])
  {
    TrimBlank(raw);
  }

  /** EAN-13, EAN-8 and UPC-A accept exactly the values that trim to 13, 8
      or 12 ASCII digits; anything else non-blank gets that symbology's
      message. */
  lemma NumericRule(t: CodeType, raw: string)
    requires IsNumeric(t)
    ensures Validate(t, raw) == None
            <==> |Trim(raw)| == DigitLength(t) && AllDigits(Trim(raw))
    ensures Validate(t, raw).Some? && Trim(raw) != [] ==>
              Validate(t, raw) == Some(match t case EAN13 => NotEan13 case EAN8 => NotEan8
                                               case UPC => NotUpcA)
  {
  }

  /** Code 39 accepts exactly the non-blank values made of its 43 data
      characters. */
  lemma Code39Rule(raw: string)
    ensures Validate(CODE39, raw) == None
            <==> Trim(raw) != [] && forall i | 0 <= i < |Trim(raw)| :: IsCode39Char(Trim(raw)[i])
  {
  }

  /** A lower-case letter anywhere in the trimmed value makes Code 39 refuse
      it. */
  lemma Code39RejectsLowercase(raw: string, k: nat)
    requires k < |Trim(raw)| && 'a' <= Trim(raw)[k] <= 'z'
    ensures Validate(CODE39, raw) == Some(NotCode39)
  {
  }

  /** CODE128 and QR codes accept exactly the non-blank values of at most 256
      characters after trimming. */
  lemma LengthRule(t: CodeType, raw: string)
    requires t == CODE128 || t == QRCODE
    ensures Validate(t, raw) == None <==> 0 < |Trim(raw)| <= MaxContentLength
    ensures Validate(t, raw) == Some(TooLong) <==> |Trim(raw)| > MaxContentLength
  {
  }

  /** Surrounding whitespace never changes the verdict. */
  lemma ValidateIgnoresPadding(t: CodeType, raw: string)
    ensures Validate(t, Trim(raw)) == Validate(t, raw)
  {
    TrimIdempotent(raw);
  }

  /** A 13-digit value is accepted as EAN-13 and a 3-digit one is refused. */
  lemma Ean13Examples(thirteen: string, three: string)
    requires thirteen == "1234567890123" && three == "123"
    ensures Validate(EAN13, thirteen) == None
    ensures Validate(EAN13, three) == Some(NotEan13)
  {
    assert Validate(EAN13, thirteen) == None by {
      TrimmedIsFixpoint(thirteen);
    }
    assert Validate(EAN13, three) == Some(NotEan13) by {
      TrimmedIsFixpoint(three);
    }
  }

  /** Upper case, digits and `-` are Code 39 characters; lower case is not. */
  lemma Code39Examples(upper: string, lower: string)
    requires upper == "ABC-123" && lower == "abc"
    ensures Validate(CODE39, upper) == None
    ensures Validate(CODE39, lower) == Some(NotCode39)
  {
    assert Validate(CODE39, upper) == None by {
      TrimmedIsFixpoint(upper);
    }
    assert Validate(CODE39, lower) == Some(NotCode39) by {
      Code39RejectsLowercase(lower, 0);
    }
  }

  /** The check digit is never verified: any 13 digits are accepted as
      EAN-13, including those whose last digit is not the GS1 check digit of
      the first twelve. */
  lemma CheckDigitNotVerified(s: string)
    requires |s| == 13 && AllDigits(s)
    requires DigitsOf(s)[12] != CheckDigit.Gs1CheckDigit(DigitsOf(s)[..12])
    ensures Validate(EAN13, s) == None
    ensures !CheckDigit.Gs1Valid(DigitsOf(s))
  {
    assert Validate(EAN13, s) == None by {
      TrimmedIsFixpoint(s);
    }
    var ds := DigitsOf(s);
    assert ds == ds[..12] + [ds[12]];
    CheckDigit.Gs1ValidIffCheckDigit(ds[..12], ds[12]);
  }
}
