/** The values the barcode page works with: the symbology tag chosen in the
    form and one generated entry of the result list. */
module CodeTypes {

  datatype Option<T> = None | Some(value: T)

  /** The six symbologies offered by the type selector. */
  datatype CodeType = QRCODE | CODE128 | EAN13 | EAN8 | UPC | CODE39

  /** The tag as the page prints it (the string literal of the union type). */
  function TypeName(t: CodeType): string {
    match t
    case QRCODE => "QRCODE"
    case CODE128 => "CODE128"
    case EAN13 => "EAN13"
    case EAN8 => "EAN8"
    case UPC => "UPC"
    case CODE39 => "CODE39"
  }

  /** The parts an entry id is rendered from: `${Date.now()}-${index}` for a
      random batch, `${Date.now()}-${index}-${suffix}` for a batch built from
      content, where the suffix is a random base-36 fragment. */
  datatype Id =
    | Stamped(time: int, index: nat)
    | StampedRandom(time: int, index: nat, suffix: string)
  {
    function Index(): nat {
      match this
      case Stamped(_, i) => i
      case StampedRandom(_, i, _) => i
    }
  }

  /** One entry of the result list. */
  datatype GeneratedCode = GeneratedCode(id: Id, kind: CodeType, value: string)

  lemma TypeNameInjective(s: CodeType, t: CodeType)
    ensures TypeName(s) == TypeName(t) <==> s == t
  {
  }
}
