/**
 * The error kinds of the client (the `Error` enum). Payloads that are foreign
 * types in the program (an `io::ErrorKind`, a JSON error category, a URL parse
 * error, an HTTP status code) are mirrored by small datatypes of their own.
 */
module Errors {

  /** The kinds of I/O failure that reading a parameter file or the terminal can report. */
  datatype IoErrorKind = NotFound | PermissionDenied | InvalidData | UnexpectedEof | OtherIo

  /** The categories a JSON parser classifies its failures into. */
  datatype JsonCategory = JsonIo | JsonSyntax | JsonData | JsonEof

  /** Why a URL could not be parsed. */
  datatype UrlErrorKind = EmptyHost | InvalidPort | RelativeUrlWithoutBase | OtherUrlError

  datatype Error =
    | ParameterMissingSeparator(argument: string)
    | MissingUrlAndCommand
    | NotFromButHasFormFile
    | ClientSerialization
    | ClientTimeout
    | ClientWithStatus(status: nat)
    | ClientOther
    | SerdeJson(category: JsonCategory)
    | IO(kind: IoErrorKind)
    | UrlParseError(reason: UrlErrorKind)
    | SyntaxLoadError(syntax: string)
}
