/**
 * A value-level description of the scanner: the state as a record, one
 * `scan_token` call as `Step`, and the whole `scan_tokens` loop as `Run`.
 * The class in module Scanning is proved to behave exactly like these.
 *
 * As in the code, one step first increments `current` and only then reads
 * `source[current]`: the byte dispatched on is the one after `start`, and
 * the read fails (a Rust panic) when the incremented offset is past the end.
 */
module ScanSpec {
  import opened Tokens

  const BYTE_LEFT_PAREN: bv8 := 0x28   // (
  const BYTE_RIGHT_PAREN: bv8 := 0x29  // )
  const BYTE_LEFT_BRACE: bv8 := 0x7B   // {
  const BYTE_RIGHT_BRACE: bv8 := 0x7D  // }
  const BYTE_COMMA: bv8 := 0x2C        // ,
  const BYTE_DOT: bv8 := 0x2E          // .
  const BYTE_MINUS: bv8 := 0x2D        // -
  const BYTE_PLUS: bv8 := 0x2B         // +
  const BYTE_SEMICOLON: bv8 := 0x3B    // ;
  const BYTE_STAR: bv8 := 0x2A         // *
  const BYTE_BANG: bv8 := 0x21         // !
  const BYTE_EQUAL: bv8 := 0x3D        // =
  const BYTE_LESS: bv8 := 0x3C         // <
  const BYTE_GREATER: bv8 := 0x3E      // >
  const BYTE_SLASH: bv8 := 0x2F        // /
  const BYTE_NEWLINE: bv8 := 0x0A      // \n
  const BYTE_NUL: bv8 := 0x00          // what `peek` returns at the end

  /** The mutable fields of a scanner; the source buffer is passed alongside. */
  datatype ScanState = ScanState(start: nat, current: nat, line: nat, tokens: seq<Token>)

  /** The state `Scanner::new` builds. */
  const INITIAL: ScanState := ScanState(0, 0, 1, [])

  /** The offsets delimit a slice of the source. */
  predicate Valid(src: seq<bv8>, s: ScanState) {
    s.start <= s.current <= |src|
  }

  /** How one `scan_token` call ends: normally, with the "unexpected character" error, or by
      panicking on a read past the end of the buffer. */
  datatype Outcome = Continue | Unexpected(line: nat) | OutOfBounds

  datatype Transition = Transition(outcome: Outcome, next: ScanState)

  /** The kind of each single-byte punctuation token, and None for every other byte. */
  function PunctuationKind(b: bv8): Option<TokenType> {
    if b == BYTE_LEFT_PAREN then Some(LeftParen)
    else if b == BYTE_RIGHT_PAREN then Some(RightParen)
    else if b == BYTE_LEFT_BRACE then Some(LeftBrace)
    else if b == BYTE_RIGHT_BRACE then Some(RightBrace)
    else if b == BYTE_COMMA then Some(Comma)
    else if b == BYTE_DOT then Some(Dot)
    else if b == BYTE_MINUS then Some(Minus)
    else if b == BYTE_PLUS then Some(Plus)
    else if b == BYTE_SEMICOLON then Some(Semicolon)
    else if b == BYTE_STAR then Some(Star)
    else None
  }

  predicate IsOperator(b: bv8) {
    b == BYTE_BANG || b == BYTE_EQUAL || b == BYTE_LESS || b == BYTE_GREATER
  }

  /**
   * The kind chosen in the `!`, `=`, `<` and `>` branches from whether
   * `match(b'=')` succeeded. For `!` a match gives the two-byte kind; for
   * `=`, `<` and `>` the pairing is the other way round, as in the code.
   */
  function OperatorKind(b: bv8, matched: bool): TokenType
    requires IsOperator(b)
  {
    if b == BYTE_BANG then (if matched then BangEqual else Bang)
    else if b == BYTE_EQUAL then (if matched then Equal else EqualEqual)
    else if b == BYTE_LESS then (if matched then Less else LessEqual)
    else (if matched then Greater else GreaterEqual)
  }

  /**
   * The slice `source[start..current]`. Rust's slicing would panic outside
   * the buffer; in every state `add_token` is reached in, the slice is in
   * bounds (see `Valid`), so the empty fallback is never taken there.
   */
  function Lexeme(src: seq<bv8>, s: ScanState): seq<bv8> {
    if Valid(src, s) then src[s.start..s.current] else []
  }

  /** `add_token`: append one token holding the current slice, no literal and the current line. */
  function WithToken(src: seq<bv8>, s: ScanState, kind: TokenType): ScanState {
    s.(tokens := s.tokens + [NewToken(kind, Lexeme(src, s), None, s.line)])
  }

  /**
   * One call of `scan_token`, started in a state the loop guard allows
   * (`current` is not at the end).
   */
  function Step(src: seq<bv8>, s: ScanState): (t: Transition)
    requires Valid(src, s) && s.current < |src|
    ensures Valid(src, t.next) && s.current < t.next.current <= s.current + 2
    ensures t.next.start == s.start && t.next.line == s.line
    ensures |s.tokens| <= |t.next.tokens| <= |s.tokens| + 1
    ensures t.next.tokens[..|s.tokens|] == s.tokens
    ensures t.outcome != Continue ==> t.next.tokens == s.tokens
    ensures t.outcome.Unexpected? ==> t.outcome.line == s.line
    ensures |t.next.tokens| == |s.tokens| + 1 ==>
      var tok := t.next.tokens[|s.tokens|];
      && tok.tokenType != EOF
      && tok.lexeme == src[s.start..t.next.current]
      && tok.literal == None
      && tok.line == s.line
  {
    // advance(): increment, then read at the new offset
    var c := s.current + 1;
    var s1 := s.(current := c);
    if c >= |src| then Transition(OutOfBounds, s1)
    else
      var b := src[c];
      if PunctuationKind(b).Some? then
        Transition(Continue, WithToken(src, s1, PunctuationKind(b).value))
      else if IsOperator(b) then
        // match(b'='): not at the end and the byte at `current` is '='
        var matched := c < |src| && src[c] == BYTE_EQUAL;
        var s2 := if matched then s1.(current := c + 1) else s1;
        Transition(Continue, WithToken(src, s2, OperatorKind(b, matched)))
      else if b == BYTE_SLASH then
        // peek() is src[c] here, since c < |src|
        var peeked := if c >= |src| then BYTE_NUL else src[c];
        if peeked != BYTE_NEWLINE && !(c >= |src|) then
          // a second advance(), whose byte is discarded
          var d := c + 1;
          if d >= |src| then Transition(OutOfBounds, s1.(current := d))
          else Transition(Continue, s1.(current := d))
        else
          Transition(Continue, WithToken(src, s1, Slash))
      else
        Transition(Unexpected(s.line), s1)
  }

  /** What `scan_tokens` returns: the token slice, the bailed error with its line, or a panic. */
  datatype ScanResult = Ok(tokens: seq<Token>) | Error(line: nat) | Panic

  /** The result of the loop together with the scanner's fields when it stops. */
  datatype Finish = Finish(result: ScanResult, final: ScanState)

  /** The `EOF` token `scan_tokens` pushes when the loop ends. */
  function EofToken(line: nat): Token {
    NewToken(EOF, [], None, line)
  }

  /**
   * `scan_tokens` from state `s`: while not at the end, set `start` to
   * `current` and take one step; the first failing step ends the loop and
   * is returned at once; at the end one `EOF` token is pushed.
   */
  function Run(src: seq<bv8>, s: ScanState): (f: Finish)
    requires Valid(src, s)
    decreases |src| - s.current
    ensures Valid(src, f.final)
    ensures f.final.line == s.line
    ensures |s.tokens| <= |f.final.tokens| && f.final.tokens[..|s.tokens|] == s.tokens
    ensures f.result.Ok? ==>
      && f.final.current == |src|
      && f.result.tokens == f.final.tokens
      && |f.result.tokens| > |s.tokens|
      && f.result.tokens[|f.result.tokens| - 1] == EofToken(s.line)
    ensures f.result.Error? ==> f.result.line == s.line
  {
    if s.current >= |src| then
      var done := s.(tokens := s.tokens + [EofToken(s.line)]);
      Finish(Ok(done.tokens), done)
    else
      var t := Step(src, s.(start := s.current));
      match t.outcome
      case Continue => Run(src, t.next)
      case Unexpected(l) => Finish(Error(l), t.next)
      case OutOfBounds => Finish(Panic, t.next)
  }

  /** Scanning a whole source with a fresh scanner. */
  function Scan(src: seq<bv8>): Finish {
    Run(src, INITIAL)
  }
}
