/** Tokens as the lexer hands them to the parser, and the ways a parse can fail.
    The lexer itself is not part of this model: a parse starts from a finite
    sequence of already classified tokens. */
module Tokens {

  /** The token tags the parser looks at; every other tag is `Other`. */
  datatype TokenType =
    // names and literal payloads
    | Ident | Qualifier | String | Address | TemplateExpr | InlineExpr
    // keywords and markers
    | Class | Const | Virtual | Static | Star | Amp | Dtor | AttrL | AttrR
    // punctuation
    | ParenL | ParenR | BraceL | BraceR | BrackL | BrackR | Comma | Semi | Colon | Equal
    | Other

  /** A token: its tag and the slice of source text it was lexed from. */
  datatype Token = Token(kind: TokenType, slice: string)

  /** Why a parse was aborted. The source reports a message and exits; here the
      first failure is returned and nothing after it happens. */
  datatype ParseError =
    | UnexpectedEndOfInput                   // next/peek on an empty queue
    | UnexpectedToken(expected: TokenType)   // next_expect saw another tag
    | ExpectedIdentifier                     // empty qualified name or declarator
    | ExpectedNumber                         // array count with a non-digit
    | ExpectedAddress                        // a slot that is neither address nor comma
    | ExpectedSeparator                      // after a slot, neither `,` nor `;`
    | TooManySlots                           // a fourth bind or hardcode slot
    | UnsupportedAttribute                   // `[[ x(...) ]]` with x other than mangle
    | UnexpectedQualifier(qualifier: TokenType) // virtual or static on a data member
}
