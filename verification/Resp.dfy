/** Reply values and parse outcomes (rd_types.hpp, parser_types.hpp, error.hpp). */
module Resp {
  import opened Decimal

  datatype Value =
    | Int(number: int64)
    | Str(text: string)
    | Nil
    | Array(elements: seq<Value>)

  datatype ErrorCode =
    | WrongIntroduction
    | ParserError
    | CountConversion
    | CountRange
    | BulkTerminator
    | NotEnoughData

  /** `consumed` counts bytes from where the parse began. */
  datatype ParseResult =
    | ProtocolError(code: ErrorCode)
    | ServerError(message: string, consumed: nat)
    | Positive(result: Value, consumed: nat)

  const Incomplete: ParseResult := ProtocolError(NotEnoughData)

  const CRLF: string := "\r\n"
}
