/**
 * What the scanner as written does, stated over ScanSpec.Step and
 * ScanSpec.Run: the shape of every token list it can return, its failure
 * modes, the consequences of reading after incrementing, and small
 * concrete scans.
 */
module ScanProperties {
  import opened Tokens
  import opened ScanSpec

  /** The kinds a single step can push: the other operator kinds and `Slash` are unreachable. */
  const EMITTED_KINDS: set<TokenType> :=
    {LeftParen, RightParen, LeftBrace, RightBrace, Comma, Dot, Minus, Plus, Semicolon, Star,
     Bang, Equal, LessEqual, GreaterEqual}

  /** A token pushed by `add_token` during a scan on line `line`. */
  predicate Emitted(tok: Token, line: nat) {
    && tok.tokenType in EMITTED_KINDS
    && 1 <= |tok.lexeme| <= 2
    && tok.literal == None
    && tok.line == line
  }

  predicate AllEmitted(ts: seq<Token>, line: nat) {
    forall i :: 0 <= i < |ts| ==> Emitted(ts[i], line)
  }

  // ---------------------------------------------------------------------
  // One step
  //
  // PunctuationStep, OperatorStep, UnexpectedStep and LastByteStep unfold
  // one branch of Step each; the lemmas after them draw the consequences.
  // ---------------------------------------------------------------------

  /** A punctuation byte after `current` pushes its kind with the lexeme `source[start..current+1]`. */
  lemma PunctuationStep(src: seq<bv8>, s: ScanState)
    requires Valid(src, s) && s.current + 1 < |src|
    requires PunctuationKind(src[s.current + 1]).Some?
    ensures Step(src, s) == Transition(Continue, s.(
      current := s.current + 1,
      tokens := s.tokens + [NewToken(PunctuationKind(src[s.current + 1]).value,
                                     src[s.start..s.current + 1], None, s.line)]))
  {
  }

  /**
   * In the `!`, `=`, `<`, `>` branches the pushed kind is `OperatorKind`
   * of the byte and whether `match(b'=')` consumed one more byte.
   */
  lemma OperatorStep(src: seq<bv8>, s: ScanState)
    requires Valid(src, s) && s.current + 1 < |src|
    requires IsOperator(src[s.current + 1])
    ensures var c := s.current + 1;
      var matched := src[c] == BYTE_EQUAL;
      var end := if matched then c + 1 else c;
      Step(src, s) == Transition(Continue, s.(
        current := end,
        tokens := s.tokens + [NewToken(OperatorKind(src[c], matched), src[s.start..end], None, s.line)]))
  {
  }

  /**
   * Since `match` looks at the byte `advance` has just returned, the match
   * succeeds exactly in the `=` branch: `!` always gives `Bang`, `=` always
   * `Equal` over two bytes, `<` always `LessEqual`, `>` always `GreaterEqual`.
   */
  lemma OperatorKindsAsWritten(src: seq<bv8>, s: ScanState)
    requires Valid(src, s) && s.current + 1 < |src|
    requires IsOperator(src[s.current + 1])
    ensures var b := src[s.current + 1];
      var t := Step(src, s);
      && |t.next.tokens| == |s.tokens| + 1
      && t.next.tokens[|s.tokens|].tokenType ==
           (if b == BYTE_BANG then Bang
            else if b == BYTE_EQUAL then Equal
            else if b == BYTE_LESS then LessEqual
            else GreaterEqual)
      && t.next.current == (if b == BYTE_EQUAL then s.current + 2 else s.current + 1)
  {
  }

  /**
   * The `/` branch never pushes `Slash`: `peek` sees the '/' itself, so the
   * scanner always advances once more, discarding that byte, and panics
   * when that byte is past the end.
   */
  lemma SlashNeverEmitted(src: seq<bv8>, s: ScanState)
    requires Valid(src, s) && s.current + 1 < |src|
    requires src[s.current + 1] == BYTE_SLASH
    ensures var t := Step(src, s);
      && t.next.tokens == s.tokens
      && t.next.current == s.current + 2
      && t.outcome == (if s.current + 2 < |src| then Continue else OutOfBounds)
  {
  }

  /** Any other byte after `current` fails with the current line and pushes nothing. */
  lemma UnexpectedStep(src: seq<bv8>, s: ScanState)
    requires Valid(src, s) && s.current + 1 < |src|
    requires var b := src[s.current + 1];
      PunctuationKind(b).None? && !IsOperator(b) && b != BYTE_SLASH
    ensures Step(src, s) == Transition(Unexpected(s.line), s.(current := s.current + 1))
  {
  }

  /** `advance` from the last offset reads past the buffer: the step panics and pushes nothing. */
  lemma LastByteStep(src: seq<bv8>, s: ScanState)
    requires Valid(src, s) && s.current + 1 == |src|
    ensures Step(src, s) == Transition(OutOfBounds, s.(current := |src|))
  {
  }

  /** Every token a step pushes from a fresh `start` is one of EMITTED_KINDS, one or two bytes long. */
  lemma StepEmits(src: seq<bv8>, s: ScanState)
    requires Valid(src, s) && s.current < |src| && s.start == s.current
    ensures var t := Step(src, s);
      |t.next.tokens| == |s.tokens| + 1 ==> Emitted(t.next.tokens[|s.tokens|], s.line)
  {
  }

  // ---------------------------------------------------------------------
  // The whole loop
  // ---------------------------------------------------------------------

  /**
   * From a state whose tokens were all pushed by `add_token` on the current
   * line, `scan_tokens` ends with every pushed token of that shape and, on
   * success only, exactly one `EOF` token, at the end.
   */
  lemma {:induction false} RunShape(src: seq<bv8>, s: ScanState)
    requires Valid(src, s) && AllEmitted(s.tokens, s.line)
    decreases |src| - s.current
    ensures var f := Run(src, s);
      && (f.result.Ok? ==>
            && AllEmitted(f.result.tokens[..|f.result.tokens| - 1], s.line)
            && f.result.tokens[|f.result.tokens| - 1] == EofToken(s.line))
      && (!f.result.Ok? ==> AllEmitted(f.final.tokens, s.line))
  {
    if s.current >= |src| {
      var ts := Run(src, s).result.tokens;
      assert ts[..|ts| - 1] == s.tokens;
    } else {
      var s0 := s.(start := s.current);
      var t := Step(src, s0);
      StepEmits(src, s0);
      assert AllEmitted(t.next.tokens, s.line) by {
        forall i | 0 <= i < |t.next.tokens|
          ensures Emitted(t.next.tokens[i], s.line)
        {
          if i < |s.tokens| {
            assert t.next.tokens[i] == t.next.tokens[..|s.tokens|][i];
          }
        }
      }
      if t.outcome == Continue {
        assert Run(src, s) == Run(src, t.next);
        RunShape(src, t.next);
      } else {
        assert Run(src, s).final == t.next;
      }
    }
  }

  /** No token of a list in which every token was pushed by `add_token` is `EOF`. */
  lemma AllEmittedHasNoEof(ts: seq<Token>, line: nat)
    requires AllEmitted(ts, line)
    ensures forall i :: 0 <= i < |ts| ==> ts[i].tokenType != EOF
  {
  }

  /**
   * A list made of pushed tokens followed by one `EOF` token has `EOF` at
   * its last index only, and every token on that line.
   */
  lemma EofOnlyAtEnd(ts: seq<Token>, line: nat)
    requires |ts| >= 1 && ts[|ts| - 1] == EofToken(line)
    requires AllEmitted(ts[..|ts| - 1], line)
    ensures forall i :: 0 <= i < |ts| ==> ts[i].line == line
    ensures forall i :: 0 <= i < |ts| ==> (ts[i].tokenType == EOF <==> i == |ts| - 1)
    ensures forall i :: 0 <= i < |ts| - 1 ==> Emitted(ts[i], line)
  {
    var body := ts[..|ts| - 1];
    forall i | 0 <= i < |ts| - 1 ensures Emitted(ts[i], line) && ts[i].tokenType != EOF {
      assert ts[i] == body[i];
    }
  }

  /**
   * A fresh scanner that succeeds returns the pushed tokens, all on line 1
   * with one- or two-byte lexemes and no literal, followed by exactly one
   * `EOF` token with an empty lexeme, no literal and line 1.
   */
  lemma ScanSucceeds(src: seq<bv8>)
    requires Scan(src).result.Ok?
    ensures var ts := Scan(src).result.tokens;
      && |ts| >= 1
      && ts[|ts| - 1] == NewToken(EOF, [], None, 1)
      && (forall i :: 0 <= i < |ts| ==> ts[i].line == 1)
      && (forall i :: 0 <= i < |ts| ==> (ts[i].tokenType == EOF <==> i == |ts| - 1))
      && (forall i :: 0 <= i < |ts| - 1 ==> Emitted(ts[i], 1))
  {
    RunShape(src, INITIAL);
    EofOnlyAtEnd(Scan(src).result.tokens, 1);
  }

  /**
   * A fresh scanner that bails reports line 1 and has pushed no `EOF`
   * token; one that panics has pushed none either.
   */
  lemma ScanFails(src: seq<bv8>)
    requires !Scan(src).result.Ok?
    ensures Scan(src).result.Error? ==> Scan(src).result.line == 1
    ensures forall i :: 0 <= i < |Scan(src).final.tokens| ==>
      Scan(src).final.tokens[i].tokenType != EOF && Scan(src).final.tokens[i].line == 1
  {
    RunShape(src, INITIAL);
    AllEmittedHasNoEof(Scan(src).final.tokens, 1);
  }

  // ---------------------------------------------------------------------
  // The first byte is never dispatched on
  // ---------------------------------------------------------------------

  /** The tokens with their lexemes erased: kind, literal and line only. */
  function Blank(ts: seq<Token>): seq<Token> {
    seq(|ts|, i requires 0 <= i < |ts| => ts[i].(lexeme := []))
  }

  function BlankResult(r: ScanResult): ScanResult {
    match r
    case Ok(ts) => Ok(Blank(ts))
    case _ => r
  }

  /** Two states that agree on everything but the lexemes of their tokens. */
  predicate Alike(s: ScanState, s': ScanState) {
    s.start == s'.start && s.current == s'.current && s.line == s'.line &&
    Blank(s.tokens) == Blank(s'.tokens)
  }

  lemma BlankAppend(ts: seq<Token>, tok: Token)
    ensures Blank(ts + [tok]) == Blank(ts) + [tok.(lexeme := [])]
  {
  }

  /** A step reads only the bytes after `current`, except for the lexeme it copies. */
  lemma StepAlike(src: seq<bv8>, src': seq<bv8>, s: ScanState, s': ScanState)
    requires |src| == |src'|
    requires Valid(src, s) && Valid(src', s') && s.current < |src|
    requires src[s.current + 1..] == src'[s.current + 1..]
    requires Alike(s, s')
    ensures Step(src, s).outcome == Step(src', s').outcome
    ensures Alike(Step(src, s).next, Step(src', s').next)
  {
    forall j | s.current + 1 <= j < |src| ensures src[j] == src'[j] {
      assert src[j] == src[s.current + 1..][j - s.current - 1];
      assert src'[j] == src'[s.current + 1..][j - s.current - 1];
    }
    var t, t' := Step(src, s), Step(src', s');
    if |t.next.tokens| == |s.tokens| + 1 {
      BlankAppend(s.tokens, t.next.tokens[|s.tokens|]);
      BlankAppend(s'.tokens, t'.next.tokens[|s'.tokens|]);
      assert t.next.tokens == s.tokens + [t.next.tokens[|s.tokens|]];
      assert t'.next.tokens == s'.tokens + [t'.next.tokens[|s'.tokens|]];
    }
  }

  lemma {:induction false} RunAlike(src: seq<bv8>, src': seq<bv8>, s: ScanState, s': ScanState)
    requires |src| == |src'| >= 1 && src[1..] == src'[1..]
    requires Valid(src, s) && Valid(src', s') && Alike(s, s')
    decreases |src| - s.current
    ensures BlankResult(Run(src, s).result) == BlankResult(Run(src', s').result)
  {
    if s.current < |src| {
      var s0, s0' := s.(start := s.current), s'.(start := s'.current);
      assert src[s.current + 1..] == src[1..][s.current..];
      assert src'[s.current + 1..] == src'[1..][s.current..];
      StepAlike(src, src', s0, s0');
      var t, t' := Step(src, s0), Step(src', s0');
      if t.outcome == Continue {
        RunAlike(src, src', t.next, t'.next);
      }
    } else {
      BlankAppend(s.tokens, EofToken(s.line));
      BlankAppend(s'.tokens, EofToken(s'.line));
    }
  }

  /**
   * Changing the first byte of the source changes at most the lexemes of
   * the result: kinds, lines, errors and panics stay the same.
   */
  lemma FirstByteNeverDispatched(src: seq<bv8>, src': seq<bv8>)
    requires |src| == |src'| >= 1 && src[1..] == src'[1..]
    ensures BlankResult(Scan(src).result) == BlankResult(Scan(src').result)
  {
    RunAlike(src, src', INITIAL, INITIAL);
  }

  // ---------------------------------------------------------------------
  // Concrete scans
  // ---------------------------------------------------------------------

  /** The empty source gives just `EOF` on line 1. */
  lemma ScanEmpty()
    ensures Scan([]).result == Ok([EofToken(1)])
  {
  }

  /** A single punctuation byte such as "(" panics: `advance` reads offset 1. */
  lemma ScanSingleByte(b: bv8)
    ensures Scan([b]).result == Panic
  {
  }

  /** "!=" gives one `Equal` token with lexeme "!=", then `EOF`. */
  lemma ScanBangEqual()
    ensures Scan([BYTE_BANG, BYTE_EQUAL]).result ==
      Ok([NewToken(Equal, [BYTE_BANG, BYTE_EQUAL], None, 1), EofToken(1)])
  {
    var src := [BYTE_BANG, BYTE_EQUAL];
    assert PunctuationKind(BYTE_EQUAL) == None;
    var s1 := ScanState(0, 2, 1, [NewToken(Equal, src, None, 1)]);
    assert src[0..2] == src;
    assert Step(src, INITIAL) == Transition(Continue, s1);
    assert Run(src, s1).result == Ok(s1.tokens + [EofToken(1)]);
  }

  /** "x(=": `LeftParen` with lexeme "x", then `Equal` with lexeme "(=", then `EOF`. */
  lemma ScanLexemeLagsKind()
    ensures var src: seq<bv8> := [0x78, BYTE_LEFT_PAREN, BYTE_EQUAL];
      Scan(src).result ==
        Ok([NewToken(LeftParen, [0x78], None, 1),
            NewToken(Equal, [BYTE_LEFT_PAREN, BYTE_EQUAL], None, 1),
            EofToken(1)])
  {
    var src: seq<bv8> := [0x78, BYTE_LEFT_PAREN, BYTE_EQUAL];
    var tok1 := NewToken(LeftParen, [0x78], None, 1);
    var tok2 := NewToken(Equal, [BYTE_LEFT_PAREN, BYTE_EQUAL], None, 1);
    assert PunctuationKind(BYTE_LEFT_PAREN) == Some(LeftParen);
    assert PunctuationKind(BYTE_EQUAL) == None;
    assert src[0..1] == [0x78] && src[1..3] == [BYTE_LEFT_PAREN, BYTE_EQUAL];
    var s1 := ScanState(0, 1, 1, [tok1]);
    var s2 := ScanState(1, 3, 1, [tok1, tok2]);
    assert Step(src, INITIAL) == Transition(Continue, s1);
    assert Step(src, s1.(start := 1)) == Transition(Continue, s2);
    assert Run(src, s2).result == Ok([tok1, tok2, EofToken(1)]);
    assert Run(src, s1) == Run(src, s2);
  }

  /** "ab": the byte 'b' is unexpected, so the scan bails on line 1. */
  lemma ScanUnexpected()
    ensures Scan([0x61, 0x62]).result == Error(1)
  {
  }

  /** "//" panics instead of being skipped as a comment. */
  lemma ScanTwoSlashes()
    ensures Scan([BYTE_SLASH, BYTE_SLASH]).result == Panic
  {
  }
}
