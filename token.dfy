/**
 * The record the scanner emits: the token kinds it uses, the optional
 * literal payload, and the four-field token with its constructor.
 */
module Tokens {

  /** The optional-value type used for a token's literal. */
  datatype Option<+T> = None | Some(value: T)

  /**
   * The lexical categories the scanner refers to: the ten single-byte
   * punctuation kinds, the one- and two-byte operators, `Slash`, and the
   * end-of-input marker `EOF`. No other kind is ever produced.
   */
  datatype TokenType =
    | LeftParen | RightParen | LeftBrace | RightBrace
    | Comma | Dot | Minus | Plus | Semicolon | Star
    | Bang | BangEqual
    | Equal | EqualEqual
    | Less | LessEqual
    | Greater | GreaterEqual
    | Slash
    | EOF

  /**
   * A decoded literal value: the raw bytes of a string, a number, or none.
   * The number is kept as the 64-bit pattern of its IEEE-754 double.
   */
  datatype Literal =
    | LitString(bytes: seq<bv8>)
    | LitNumber(bits: bv64)
    | LitNone

  /** A token: its kind, the bytes it was scanned from, its literal and its line. */
  datatype Token = Token(tokenType: TokenType, lexeme: seq<bv8>, literal: Option<Literal>, line: nat)

  /** `Token::new`: build a token that keeps every argument as given. */
  function NewToken(tokenType: TokenType, lexeme: seq<bv8>, literal: Option<Literal>, line: nat): (t: Token)
    ensures t.tokenType == tokenType
    ensures t.lexeme == lexeme
    ensures t.literal == literal
    ensures t.line == line
  {
    Token(tokenType, lexeme, literal, line)
  }

  /** The structural equality derived for tokens compares all four fields. */
  lemma TokenEquality(a: Token, b: Token)
    ensures a == b <==>
      a.tokenType == b.tokenType && a.lexeme == b.lexeme && a.literal == b.literal && a.line == b.line
  {
  }

  /** Two tokens built by `NewToken` are equal exactly when all the arguments are. */
  lemma NewTokenInjective(k1: TokenType, x1: seq<bv8>, l1: Option<Literal>, n1: nat,
                          k2: TokenType, x2: seq<bv8>, l2: Option<Literal>, n2: nat)
    ensures NewToken(k1, x1, l1, n1) == NewToken(k2, x2, l2, n2) <==>
      k1 == k2 && x1 == x2 && l1 == l2 && n1 == n2
  {
  }
}
