/** Optional values, and results that carry the reason a step was refused. */
module Results {

  datatype Option<+T> = None | Some(value: T)

  /** One constructor for each way the code refuses; each names the branch that raises. */
  datatype Fault =
    // encoder
    | NegativeHead | ArgumentTooLarge | BoolValue | FloatValue | TextNotNfc | UnsupportedType
    | BadMapKey | DuplicateMapKey
    // decoder
    | TruncatedHead | TruncatedArgument | NonShortest | ReservedArgument
    | TruncatedString | InvalidUtf8 | UnsortedKeys | UnsupportedTag
    | BadBignumContent | LeadingZero | SmallBignum | MajorSeven | TrailingBytes
    // records
    | NotARecord | MissingEnvelope | WrongSchemaVersion | UnknownRecordType | FieldOutOfRange
    | UnknownField | BadField | MissingRequired | NoRoundTrip | HashInputLength
    // database statements
    | NoTypeName | ShaMismatch | BadTypeName | NoSuchEntity | DuplicateRecord | IntegerRange | NulInText
    | WrongSeq | WrongPrev | MissingCanonical | EntityMismatch | WrongEntryHash
    | NotKeyDerivation | NotChained | IncompleteContext | BadLength | BadEnum | DuplicateContext
    | DuplicateAddressText | NoSuchReference | NoSuchRow

  datatype Result<+T> = Ok(value: T) | Err(fault: Fault) {
    predicate IsFailure() {
      Err?
    }

    function PropagateFailure<U>(): Result<U>
      requires Err?
    {
      Err(fault)
    }

    function Extract(): T
      requires Ok?
    {
      value
    }
  }
}
