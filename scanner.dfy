/**
 * The scanner object: an immutable source buffer, the growing token list
 * and the `start`, `current` and `line` cursor fields, updated in place by
 * its methods exactly as the Rust methods update them.
 */
module Scanning {
  import opened Tokens
  import opened ScanSpec
  import ScanProperties

  /** What `source.as_bytes()[i]` yields: the byte, or a panic when `i` is past the end. */
  datatype Fetch = Byte(value: bv8) | IndexOutOfBounds

  class Scanner {
    const source: seq<bv8>
    var tokens: seq<Token>
    var start: nat
    var current: nat
    var line: nat

    /** The mutable fields as a value, to compare with the functions of ScanSpec. */
    function Snapshot(): ScanState
      reads this
    {
      ScanState(start, current, line, tokens)
    }

    predicate Valid()
      reads this
    {
      ScanSpec.Valid(source, Snapshot())
    }

    /** `Scanner::new`. */
    constructor (source: seq<bv8>)
      ensures this.source == source
      ensures start == 0 && current == 0 && line == 1 && tokens == []
      ensures Snapshot() == INITIAL && Valid()
    {
      this.source := source;
      start, current, line := 0, 0, 1;
      tokens := [];
    }

    function IsAtEnd(): (atEnd: bool)
      reads this
      ensures atEnd <==> current >= |source|
    {
      current >= |source|
    }

    /** The byte at `current`, or NUL at the end; reads nothing past the buffer. */
    function Peek(): (b: bv8)
      reads this
      ensures current < |source| ==> b == source[current]
      ensures current >= |source| ==> b == BYTE_NUL
    {
      if IsAtEnd() then BYTE_NUL else source[current]
    }

    /**
     * `advance`: increment `current`, then read the byte at the new offset.
     * Both callers call it with `current` not at the end; the read is still
     * out of bounds when `current` was the last offset.
     */
    method Advance() returns (r: Fetch)
      requires current < |source|
      modifies this`current
      ensures current == old(current) + 1
      ensures r.Byte? <==> old(current) + 1 < |source|
      ensures r.Byte? ==> r.value == source[current]
    {
      current := current + 1;
      if current < |source| {
        r := Byte(source[current]);
      } else {
        r := IndexOutOfBounds;
      }
    }

    /** `add_token`: push one token for `source[start..current]`, with no literal, on the current line. */
    method AddToken(kind: TokenType)
      requires Valid()
      modifies this`tokens
      ensures tokens == old(tokens) + [NewToken(kind, source[start..current], None, line)]
      ensures Snapshot() == WithToken(source, old(Snapshot()), kind)
    {
      tokens := tokens + [NewToken(kind, source[start..current], None, line)];
    }

    /** `match`: consume the byte at `current` when it is `expected`. */
    method Match(expected: bv8) returns (matched: bool)
      modifies this`current
      ensures matched <==> old(current) < |source| && source[old(current)] == expected
      ensures current == if matched then old(current) + 1 else old(current)
    {
      if IsAtEnd() {
        return false;
      }
      if source[current] != expected {
        return false;
      }
      current := current + 1;
      return true;
    }

    /** `scan_token`: one dispatch on the byte that `advance` returns. */
    method ScanToken() returns (outcome: Outcome)
      requires Valid() && current < |source|
      modifies this`current, this`tokens
      ensures outcome == Step(source, old(Snapshot())).outcome
      ensures Snapshot() == Step(source, old(Snapshot())).next
    {
      var fetched := Advance();
      if fetched.IndexOutOfBounds? {
        return OutOfBounds;
      }
      var b := fetched.value;
      var punctuation := PunctuationKind(b);
      if punctuation.Some? {
        AddToken(punctuation.value);
      } else if IsOperator(b) {
        var matched := Match(BYTE_EQUAL);
        AddToken(OperatorKind(b, matched));
      } else if b == BYTE_SLASH {
        if Peek() != BYTE_NEWLINE && !IsAtEnd() {
          var discarded := Advance();
          if discarded.IndexOutOfBounds? {
            return OutOfBounds;
          }
        } else {
          // The code pushes a `Slash` token here. The branch is dead: `peek`
          // reads the very byte `advance` returned, which is '/', and the
          // offset is inside the buffer (ScanProperties.SlashNeverEmitted).
          assert false;
        }
      } else {
        return Unexpected(line);
      }
      return Continue;
    }

    /** `scan_tokens`: scan until the end, stopping at the first failure, then push `EOF`. */
    method ScanTokens() returns (r: ScanResult)
      requires Valid()
      modifies this`start, this`current, this`tokens
      ensures r == Run(source, old(Snapshot())).result
      ensures Snapshot() == Run(source, old(Snapshot())).final
    {
      while !IsAtEnd()
        invariant Valid()
        invariant Run(source, Snapshot()) == Run(source, old(Snapshot()))
        decreases |source| - current
      {
        start := current;
        var outcome := ScanToken();
        match outcome {
          case Continue =>
          case Unexpected(l) => return Error(l);
          case OutOfBounds => return Panic;
        }
      }
      tokens := tokens + [EofToken(line)];
      r := Ok(tokens);
    }
  }

  /**
   * How a caller uses the scanner: build one for the source and run
   * `scan_tokens` on it. Every fresh scanner gives the same answer for the
   * same source, the answer of ScanSpec.Scan.
   */
  method ScanSource(src: seq<bv8>) returns (r: ScanResult)
    ensures r == Scan(src).result
    ensures r.Ok? ==> |r.tokens| >= 1 && r.tokens[|r.tokens| - 1] == NewToken(EOF, [], None, 1)
    ensures r.Ok? ==> forall i :: 0 <= i < |r.tokens| ==> r.tokens[i].line == 1
    ensures r.Error? ==> r.line == 1
  {
    var scanner := new Scanner(src);
    r := scanner.ScanTokens();
    if r.Ok? {
      ScanProperties.ScanSucceeds(src);
    } else {
      ScanProperties.ScanFails(src);
    }
  }
}
