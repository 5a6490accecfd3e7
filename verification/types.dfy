/** The values exchanged between the generator's components. */
module Types {
  import opened Wrappers
  import opened Strings

  /** A resolved type: the C storage type name (`UNS8`, `INTEGER16`, `REAL32`), an
      optional byte size (strings and domains only), the generator's type tag
      (`uint16`, `visible_string`, `valueRange_3`, ...) and whether it is unsigned. */
  datatype TypeInfos = TypeInfos(typeName: string, size: Option<int>, ctype: string, isUnsigned: bool)

  /** A value read from the object dictionary. A floating-point value is carried
      as the text Python's `str()` gives for it. */
  datatype ODValue = IntValue(i: int) | StrValue(s: string) | RealValue(text: string)

  /** A value of the context's metadata map. */
  datatype MetaValue = MetaInt(i: int) | MetaStr(s: string)

  /** The exceptions the generator raises. */
  datatype Error =
    | InvalidType(typename: string)           // ValueError of the type resolver (also `int("")`)
    | NotAnInteger(index: int, subIndex: int) // failed `isinstance(..., int)` assertion
    | UnknownTypeIndex(typeIndex: int)        // the node has no type name for the reference
    | NotText                                 // a domain value that is not a string
    | NotIntegral                             // an integer type tag with a string or float value
    | BadTemplate                             // a malformed `str.format` template
    | MissingKey(key: string)                 // a template field absent from the context

  /** Python's `str()` of a dictionary value. */
  function ValueText(v: ODValue): string {
    match v
    case IntValue(i) => IntToDecimal(i)
    case StrValue(s) => s
    case RealValue(t) => t
  }

  /** Python's `str()` of a metadata value. */
  function MetaText(v: MetaValue): string {
    match v
    case MetaInt(i) => IntToDecimal(i)
    case MetaStr(s) => s
  }
}
