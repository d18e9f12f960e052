# Lox lexical scanner, modelled in Dafny

This project models the lexical scanner of a small Rust front end for the
Lox scripting language (`src/scanner.rs`) and the token record it emits
(`src/token.rs`). The scanner is a cursor over an immutable byte buffer.
Its fields `start`, `current` and `line` are updated in place, and it grows
a token vector. One `while` loop dispatches on one byte per step.

The model follows the code as written:

- `advance` increments `current` before it reads. So the byte dispatched on
  is `source[start + 1]`, and the first byte of the source is never
  dispatched on.
- The lexeme `source[start..current]` can differ from the dispatched byte.
- A step started at the last offset reads past the buffer. In Rust that is
  a panic; here it is the explicit outcome `Panic`.

Files and modules:

- `token.dfy`, module `Tokens`: `TokenType`, `Literal`, `Token`, and
  `NewToken` for `Token::new`. `TokenType` holds only the kinds the scanner
  names.
- `scan_spec.dfy`, module `ScanSpec`: the scanner state as a value,
  `ScanState`. `Step` describes one `scan_token` call. `Run` describes the
  `scan_tokens` loop and returns both the result (`Ok(tokens)`,
  `Error(line)` or `Panic`) and the fields when the loop stops.
- `scanner.dfy`, module `Scanning`: the class `Scanner`, with the same
  fields and one method per Rust method. `ScanToken` and `ScanTokens` are
  proved equal to `Step` and `Run` applied to the old state.
- `scan_properties.dfy`, module `ScanProperties`: lemmas about `Step` and
  `Run`. They cover the shape of every returned token list, the failure
  modes, what the reversed operator pairings and the read-after-increment
  lead to, and a few concrete scans.

### Where the code departs from a conventional Lox scanner

- There is no handling of whitespace, newlines, comments, strings,
  numbers, identifiers or keywords, and `line` is never incremented (it
  stays 1). The model has none of them either.
- In the `=`, `<` and `>` branches the pairing is reversed: `Equal` when
  `match(b'=')` succeeds and `EqualEqual` when it fails, and likewise for
  `<` and `>`. Only `!` gives the two-byte kind on a match. The model keeps
  these pairings (`ScanSpec.OperatorKind`).
- `match` reads `source[current]`, and that is the byte `advance` has just
  returned. So:
  - `!` always gives `Bang`.
  - `=` always gives `Equal` over two bytes.
  - `<` always gives `LessEqual`.
  - `>` always gives `GreaterEqual`.
  - `/` never gives `Slash`: `peek` sees the `/` itself, so the scanner
    always advances once more.

  These are proved as lemmas. In `Scanner.ScanToken`, the `Slash` push is a
  branch proved unreachable (`assert false`). `Step` keeps the branch as
  written.
- The scan stops at the first unexpected byte, and no `EOF` is pushed.
  The model does the same.
- A single punctuation byte does not scan to that token plus `EOF`: every
  one-byte source panics (`ScanSingleByte`). `"!="` gives `Equal` with
  lexeme `"!="` (`ScanBangEqual`).

## Model

| member | source | states |
|---|---|---|
| Tokens.NewToken | src/token.rs:21-33 | the token keeps the kind, the lexeme, the literal (`None` included) and the line exactly as given |
| Tokens.TokenEquality | src/token.rs:12-18 | two tokens are equal exactly when kind, lexeme, literal and line are all equal |
| Tokens.NewTokenInjective | src/token.rs:21-33 | two constructed tokens are equal exactly when all four arguments are equal |
| Scanning.Scanner.constructor | src/scanner.rs:15-23 | a new scanner has `source` equal to the input, `start = current = 0`, `line = 1` and no tokens |
| Scanning.Scanner.IsAtEnd | src/scanner.rs:25-27 | true exactly when `current` is at least the length of `source` |
| Scanning.Scanner.Peek | src/scanner.rs:126-131 | NUL at the end, otherwise `source[current]`; changes no field |
| Scanning.Scanner.Advance | src/scanner.rs:99-102 | `current` grows by exactly 1; the result is `source[current]` at the new offset when that offset is inside the buffer, and the out-of-bounds panic otherwise |
| Scanning.Scanner.AddToken | src/scanner.rs:104-112 | appends exactly one token (the kind given, lexeme `source[start..current]`, no literal, the current line); earlier tokens are unchanged |
| Scanning.Scanner.Match | src/scanner.rs:114-124 | true and `current` one further exactly when not at the end and `source[current]` is the expected byte; otherwise false and `current` unchanged |
| Scanning.Scanner.ScanToken | src/scanner.rs:45-97 | the outcome and the new fields are those of `ScanSpec.Step` on the old fields |
| Scanning.Scanner.ScanTokens | src/scanner.rs:29-43 | the result and the final fields are those of `ScanSpec.Run` on the old fields |
| Scanning.ScanSource | src/scanner.rs:15-43 | a fresh scanner returns `Scan(source)` (`ScanSpec.Scan`: `Run` from the state `new` builds); on success the last token is `EOF` with empty lexeme, no literal and line 1, and every token is on line 1; a bail reports line 1 |
| ScanSpec.Step | src/scanner.rs:45-97 | one step (built from `PunctuationKind`, the arm table at lines 49-58, `OperatorKind`, the pairing table at lines 59-86, and `WithToken`, `add_token` at lines 104-112) keeps the offsets valid and moves `current` forward by 1 or 2; it appends at most one token and keeps the earlier ones; a failing step appends nothing, and a bail carries the current line; an appended token is not `EOF`, has lexeme `source[start..current]`, no literal and the current line |
| ScanSpec.Run | src/scanner.rs:29-43 | the loop (with `EofToken`, the push at lines 35-40) terminates; earlier tokens are kept and `line` is unchanged; on success the loop stopped exactly at the end, and the result is the accumulated tokens followed by `EOF` on the current line; a bail carries the current line |
| ScanProperties.PunctuationStep | src/scanner.rs:49-58 | a punctuation byte at `current + 1` appends its kind with lexeme `source[start..current + 1]` and moves `current` by 1 |
| ScanProperties.OperatorStep | src/scanner.rs:59-86 | in the `!`, `=`, `<`, `>` branches the kind depends only on whether `match(b'=')` succeeded, with the code's pairings; `current` moves one byte further on a match |
| ScanProperties.OperatorKindsAsWritten | src/scanner.rs:59-86 | because `match` re-reads the dispatched byte: `!` gives `Bang`, `=` gives `Equal` over two bytes, `<` gives `LessEqual`, `>` gives `GreaterEqual` |
| ScanProperties.SlashNeverEmitted | src/scanner.rs:87-93 | the `/` branch consumes one more byte and appends nothing, and panics when that byte is past the end |
| ScanProperties.UnexpectedStep | src/scanner.rs:94 | any other byte fails with the current line, appends nothing, and leaves `current` one further |
| ScanProperties.LastByteStep | src/scanner.rs:99-102 | a step started at the last offset panics and appends nothing |
| ScanProperties.StepEmits | src/scanner.rs:45-97 | an appended token is one of the reachable kinds, with a lexeme of one or two bytes, no literal and the current line |
| ScanProperties.RunShape | src/scanner.rs:29-43 | on success every token but the last was appended by a step and the last is `EOF`; on failure every token was appended by a step, so no `EOF` was pushed |
| ScanProperties.EofOnlyAtEnd | src/scanner.rs:35-42 | a list of pushed tokens followed by one `EOF` has `EOF` at its last index only, and every token on the same line |
| ScanProperties.ScanSucceeds | src/scanner.rs:15-43 | a fresh scanner that succeeds returns tokens all on line 1, the only `EOF` being the last token (empty lexeme, no literal) |
| ScanProperties.ScanFails | src/scanner.rs:29-33 | a fresh scanner that bails reports line 1, and a failed scan has pushed no `EOF` token |
| ScanProperties.StepAlike | src/scanner.rs:45-102 | a step reads no byte before `current + 1`, except the lexeme it copies |
| ScanProperties.RunAlike | src/scanner.rs:29-43 | two sources that differ only in the first byte give the same results from matching states, up to lexemes |
| ScanProperties.FirstByteNeverDispatched | src/scanner.rs:99-102 | changing the first byte of the source changes only lexemes: kinds, lines, errors and panics stay the same |
| ScanProperties.ScanEmpty | src/scanner.rs:29-42 | the empty source gives only `EOF` on line 1 |
| ScanProperties.ScanSingleByte | src/scanner.rs:99-102 | every one-byte source panics |
| ScanProperties.ScanBangEqual | src/scanner.rs:59-72 | `"!="` gives one `Equal` token with lexeme `"!="`, then `EOF` |
| ScanProperties.ScanLexemeLagsKind | src/scanner.rs:45-72 | `"x(="` gives `LeftParen` with lexeme `"x"`, `Equal` with lexeme `"(="`, then `EOF` |
| ScanProperties.ScanUnexpected | src/scanner.rs:94 | `"ab"` bails on line 1 |
| ScanProperties.ScanTwoSlashes | src/scanner.rs:87-93 | `"//"` panics |

## Left out

- `src/main.rs`: the argument-count dispatch, the exit code 64 and the calls to `run_prompt` and `run_file`. This is command-line glue, and those two methods are not part of this model.
- `src/lox.rs`: the `Report` trait and the `had_error` flag. These are console diagnostics, and the scanner never calls them.
- `impl fmt::Display for Token`: formatting through the standard formatter.
- The derived `Debug` and `PartialEq` of the `Scanner` struct: the class is compared by identity, not field by field.
- `Literal::Number`: the `f64` is kept as its 64-bit IEEE-754 pattern (`LitNumber(bits)`). So literal equality compares bit patterns, whereas Rust's `==` on `f64` says NaN differs from itself and `0.0` equals `-0.0`. The scanner never builds a number literal.
- The source is any byte sequence. A Rust `String` is always valid UTF-8, so the lemmas cover more inputs than the program can receive.
- `String::from_utf8_lossy` on the lexeme: lexemes are byte sequences. A one- or two-byte slice that splits a multi-byte UTF-8 character would become U+FFFD in Rust; the model keeps the raw bytes.
- The text of the `bail!` message: the error carries only the line number.
- `usize` overflow of `current` and `line`: offsets are unbounded naturals. `current` never passes `|source|`, and `line` is never changed.
- After a panic, Rust unwinds and the scan is over. The model still reports the fields at the point of the failed read, but nothing depends on them.
- `crate::token_type` is not part of this model; `TokenType` declares only the kinds the scanner names, plus `EOF`.
- Scanning.Scanner.Advance: requires `current` to be before the end. Both call sites guarantee this: the loop guard of `scan_tokens`, and the `!is_at_end()` test in the `/` branch. A direct call at the end would also panic in Rust and is not modelled.
- Scanning.Scanner.ScanToken: requires `current` to be before the end, as the loop guard of `scan_tokens` guarantees at its only call site.
