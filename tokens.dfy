/** Tokens as the scanner produces them and the parser consumes them. */
module Tokens {
  import opened Objects

  /** One kind per variant the scanner emits (Atom, Quote, LParen, RParen,
      Str, Number, Real, EndOfFile, Invalid) or the parser consumes (Word,
      StartDefine, StartConstDefine, EndDefine, Str, Number, Real,
      EndOfFile). */
  datatype TokenKind =
    | Atom
    | Quote
    | LParen
    | RParen
    | Str
    | Number
    | Real
    | EndOfFile
    | Invalid
    | Word
    | StartDefine
    | StartConstDefine
    | EndDefine

  /** A token: its kind, the value it denotes, its text, the line it ends
      on, its absolute character offset and the path of its source. */
  datatype Token = Token(
    kind: TokenKind,
    literal: Object,
    lexeme: string,
    line: nat,
    start: nat,
    path: string)
}
