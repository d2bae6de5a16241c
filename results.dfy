/** Failure-compatible wrappers and the failures the post-processor raises. */
module Results {

  datatype Option<T> = None | Some(value: T)

  /** One constructor per place where WrapperController throws. */
  datatype Error =
    | UnknownInputFormat              // parseOutputFile: the input file name has no known layout
    | UnknownRecordType               // getSatNumIndex called with UNKNOWN
    | MalformedLine(line: string)     // a data line with too few tokens
    | MalformedHeader(line: string)   // getHeaderMap: a header line with fewer than two tokens
    | IncorrectHeaderFormat           // getHeaderIndices: DATE or TIME missing
    | NoPrn                           // getDataIndex: neither DATA nor PRN
    | PrnIsLast                       // getDataIndex: PRN is the last token
    | MissingHeader(system: string)   // groupDto: no header line for the system (null header)
    | BadTime(token: string)          // getProcessedLine: LocalTime.parse rejects the TIME token
    | ColumnOverflow(line: string)    // processInfoBlock: a count index beyond the first line's columns

  datatype Result<T> = Ok(value: T) | Err(error: Error) {
    predicate IsFailure() { Err? }

    function PropagateFailure<U>(): Result<U>
      requires Err?
    {
      Err(error)
    }

    function Extract(): T
      requires Ok?
    {
      value
    }
  }
}
