/** What one pass of the scanner computes, as functions of the source text
    and a position: the end of every inner loop, the outcome of every
    `scan_*` routine, and the sequence of `scan_token` results of a run. */
module ScanSpec {
  import opened Objects
  import opened Tokens
  import opened Errors
  import opened ScannerChars

  // ---------------------------------------------------------------------
  // Inner loops

  /** The character classes the scanner skips over. */
  datatype CharClass = AlphaNum | Digit | Hex | Binary

  predicate InClass(c: char, k: CharClass)
  {
    match k
    case AlphaNum => IsAlphaNumeric(c)
    case Digit => IsDigit(c)
    case Hex => IsHex(c)
    case Binary => IsBinary(c)
  }

  /** `while is_class(peek()) { advance() }` from `i`: the end of the
      longest run of class-`k` characters starting at `i`. */
  function SkipWhile(src: string, i: nat, k: CharClass): (j: nat)
    decreases |src| - i
    ensures i <= j
    ensures j <= |src| || j == i
    ensures !InClass(CharAt(src, j), k)
  {
    if i < |src| && InClass(src[i], k) then SkipWhile(src, i + 1, k) else i
  }

  /** The end of a `#` comment: the first newline at or after `i`, or the
      end of the input. */
  function CommentEnd(src: string, i: nat): (j: nat)
    decreases |src| - i
    ensures i <= j
    ensures j <= |src| || j == i
    ensures j >= |src| || src[j] == '\n'
  {
    if i < |src| && src[i] != '\n' then CommentEnd(src, i + 1) else i
  }

  /** The characters that end a numeral. */
  predicate IsDelimiter(c: char)
  {
    c == ' ' || c == '\t' || c == '\n'
  }

  /** The end of a numeral: the first space, tab or newline at or after
      `i`, or the end of the input. */
  function RunEnd(src: string, i: nat): (j: nat)
    decreases |src| - i
    ensures i <= j
    ensures j <= |src| || j == i
    ensures j >= |src| || IsDelimiter(src[j])
  {
    if i < |src| && !IsDelimiter(src[i]) then RunEnd(src, i + 1) else i
  }

  /** Every character `SkipWhile` passes over is in the class, so it stops
      at the first one that is not. */
  lemma {:induction false} SkipWhileRun(src: string, i: nat, k: CharClass)
    decreases |src| - i
    ensures forall m | i <= m < SkipWhile(src, i, k) :: m < |src| && InClass(src[m], k)
  {
    if i < |src| && InClass(src[i], k) {
      SkipWhileRun(src, i + 1, k);
    }
  }

  /** A comment contains no newline. */
  lemma {:induction false} CommentEndRun(src: string, i: nat)
    decreases |src| - i
    ensures forall m | i <= m < CommentEnd(src, i) :: m < |src| && src[m] != '\n'
  {
    if i < |src| && src[i] != '\n' {
      CommentEndRun(src, i + 1);
      assert CommentEnd(src, i) == CommentEnd(src, i + 1);
    } else {
      assert CommentEnd(src, i) == i;
    }
  }

  /** A numeral contains no space, tab or newline. */
  lemma {:induction false} RunEndRun(src: string, i: nat)
    decreases |src| - i
    ensures forall m | i <= m < RunEnd(src, i) :: m < |src| && !IsDelimiter(src[m])
  {
    if i < |src| && !IsDelimiter(src[i]) {
      RunEndRun(src, i + 1);
    }
  }

  /** The loop of `scan_str` from position `i` on line `l`: the position of
      the closing quote (or a position at or past the end) and the line
      reached. A backslash makes the loop step over the next character. */
  function StrScan(src: string, quote: char, i: nat, l: nat): (r: (nat, nat))
    requires i <= |src| + 1
    decreases |src| + 1 - i
    ensures i <= r.0 <= |src| + 1 && l <= r.1
    ensures r.0 >= |src| || src[r.0] == quote
  {
    if i >= |src| || src[i] == quote then (i, l)
    else
      var l' := if src[i] == '\n' then l + 1 else l;
      var i' := if src[i] == '\\' then i + 2 else i + 1;
      StrScan(src, quote, i', l')
  }

  // ---------------------------------------------------------------------
  // Sub-scanners

  /** The outcome of a sub-scanner: its result, where it stopped and the line it reached. */
  datatype Lexed = Lexed(result: Result<Token, ExecError>, next: nat, line: nat)

  /** `scan_str` for the quote at `s`. */
  function StrLexed(src: string, path: string, s: nat, l: nat): (x: Lexed)
    requires s < |src|
    ensures x.next > s && x.line >= l
    ensures x.result.Ok? ==> x.result.value.start == s && x.result.value.line == x.line
    ensures x.result.Err? ==> x.result.error.token.start == s && x.result.error.token.line == x.line
  {
    var r := StrScan(src, src[s], s + 1, l);
    if r.0 >= |src| then
      Lexed(Err(ExecError(UnterminatedString, Token(Invalid, Nil, "", r.1, s, path))), r.0, r.1)
    else
      Lexed(Ok(Token(TokenKind.Str, Object.Str(Unescaped(src[s + 1..r.0])), Unescaped(src[s..r.0 + 1]), r.1, s, path)),
            r.0 + 1, r.1)
  }

  /** The exponent of a real literal: `e` or `E`, an optional sign, digits. */
  predicate IsExponent(x: string)
  {
    |x| >= 2 && (x[0] == 'e' || x[0] == 'E') &&
    var d := if x[1] == '+' || x[1] == '-' then x[2..] else x[1..];
    |d| > 0 && forall i | 0 <= i < |d| :: IsDigit(d[i])
  }

  /** The unsigned decimal texts `f64::from_str` accepts: digits, a dot,
      digits (at least one digit on one side) and an optional exponent. */
  predicate IsRealText(t: string)
  {
    var a := SkipWhile(t, 0, Digit);
    a < |t| && t[a] == '.' &&
    var b := SkipWhile(t, a + 1, Digit);
    (a > 0 || b > a + 1) && (b == |t| || IsExponent(t[b..]))
  }

  /** The literal `get_num` makes of the text `number`: a real when the
      scanner saw a fraction, otherwise the number in `radix`. */
  function NumberLiteral(number: string, kind: TokenKind, radix: nat): Option<Object>
  {
    if kind == TokenKind.Real then
      if IsRealText(number) then Some(Object.Real(number)) else None
    else
      match StrToNum(number, radix)
      case Some(n) => Some(Object.Number(n))
      case None => None
  }

  /** `get_num` once the cursor stands at `e`: the text `src[s + off..e]`
      parsed, the lexeme `prefix` followed by that text. */
  function NumberResult(src: string, path: string, s: nat, off: nat, e: nat, kind: TokenKind,
                        radix: nat, l: nat, prefix: string): Result<Token, ExecError>
    requires s + off <= e <= |src|
  {
    var number := src[s + off..e];
    match NumberLiteral(number, kind, radix)
    case Some(v) => Ok(Token(kind, v, prefix + number, l, s, path))
    case None => Err(ExecError(NumberParseError, Token(Invalid, Nil, number, l, s, path)))
  }

  /** How `scan_number` reads the numeral at `s`: the length of its prefix,
      where its digit loops stop, the kind of token, the radix and the
      prefix text. */
  datatype NumShape = NumShape(off: nat, digitsEnd: nat, kind: TokenKind, radix: nat, prefix: string)

  /** `scan_number`'s choice: `0x` hex, `0b` binary, otherwise decimal
      digits, with a fraction when a dot and a digit follow them. */
  function NumberShape(src: string, s: nat): (sh: NumShape)
    requires s < |src|
    ensures s + sh.off <= sh.digitsEnd <= |src| && s < sh.digitsEnd
  {
    if src[s] == '0' && CharAt(src, s + 1) == 'x' then NumShape(2, SkipWhile(src, s + 2, Hex), TokenKind.Number, 16, "0x")
    else if src[s] == '0' && CharAt(src, s + 1) == 'b' then NumShape(2, SkipWhile(src, s + 2, Binary), TokenKind.Number, 2, "0b")
    else DecShape(src, s)
  }

  /** `scan_dec`'s loops: digits, and a fraction when a dot and a digit follow. */
  function DecShape(src: string, s: nat): (sh: NumShape)
    requires s < |src|
    ensures sh.off == 0 && s < sh.digitsEnd <= |src| && sh.radix == 10 && sh.prefix == ""
  {
    var d := SkipWhile(src, s + 1, Digit);
    if CharAt(src, d) == '.' && IsDigit(CharAt(src, d + 1)) then
      NumShape(0, SkipWhile(src, d + 1, Digit), TokenKind.Real, 10, "")
    else NumShape(0, d, TokenKind.Number, 10, "")
  }

  /** `scan_number` for the digit at `s`: its digit loops, then `get_num`. */
  function NumberLexed(src: string, path: string, s: nat, l: nat): (x: Lexed)
    requires s < |src|
    ensures x.next > s && x.line == l
  {
    var sh := NumberShape(src, s);
    var e := RunEnd(src, sh.digitsEnd);
    Lexed(NumberResult(src, path, s, sh.off, e, sh.kind, sh.radix, l, sh.prefix), e, l)
  }

  // ---------------------------------------------------------------------
  // One token

  /** The outcome of one `scan_token`: a token, nothing, or an error; where
      the scanner stopped and the line it reached. */
  datatype Step = Step(result: Result<Option<Token>, ExecError>, next: nat, line: nat)

  function FromLexed(x: Lexed): Step
  {
    match x.result
    case Ok(t) => Step(Ok(Some(t)), x.next, x.line)
    case Err(e) => Step(Err(e), x.next, x.line)
  }

  /** A token carrying no literal, one character long. */
  function Punct(kind: TokenKind, lexeme: string, l: nat, s: nat, path: string): Step
  {
    Step(Ok(Some(Token(kind, Nil, lexeme, l, s, path))), s + 1, l)
  }

  /** `scan_token` with the cursor at `s` on line `l`. */
  function TokenStep(src: string, path: string, s: nat, l: nat): (st: Step)
    ensures st.next > s && st.line >= l
    ensures st.result.Ok? && st.result.value.Some? ==>
      st.result.value.value.start == s && l <= st.result.value.value.line <= st.line
    ensures st.result.Err? ==> st.result.error.token.start == s && l <= st.result.error.token.line <= st.line
  {
    var c := CharAt(src, s);
    if c == ' ' || c == '\r' then Step(Ok(None), s + 1, l)
    else if c == '\n' then Step(Ok(None), s + 1, l + 1)
    else if c == '#' then Step(Ok(None), CommentEnd(src, s + 1), l)
    else if c == '\'' then Punct(Quote, "'", l, s, path)
    else if c == '"' then FromLexed(StrLexed(src, path, s, l))
    else if c == '(' then Punct(LParen, "(", l, s, path)
    else if c == ')' then Punct(RParen, ")", l, s, path)
    else if c == '\0' then Punct(EndOfFile, "(", l, s, path)
    else if IsDigit(c) then FromLexed(NumberLexed(src, path, s, l))
    else if IsAlpha(c) then
      var e := SkipWhile(src, s + 1, AlphaNum);
      Step(Ok(Some(Token(TokenKind.Atom, Object.Atom(src[s..e]), src[s..e], l, s, path))), e, l)
    else Step(Err(ExecError(InvalidToken, Token(Invalid, Nil, "", l, s, path))), s + 1, l)
  }

  // ---------------------------------------------------------------------
  // A whole run

  /** The results of the `scan_token` calls of `scan`, from position `pos`
      on line `l` until the cursor reaches the end. */
  function Trace(src: string, path: string, pos: nat, l: nat): seq<Result<Option<Token>, ExecError>>
    decreases |src| - pos
  {
    if pos >= |src| then []
    else
      var st := TokenStep(src, path, pos, l);
      [st.result] + Trace(src, path, st.next, st.line)
  }

  /** The tokens among `rs`, in order. */
  function TokensIn(rs: seq<Result<Option<Token>, ExecError>>): seq<Token>
  {
    if |rs| == 0 then []
    else (if rs[0].Ok? && rs[0].value.Some? then [rs[0].value.value] else []) + TokensIn(rs[1..])
  }

  /** The errors among `rs`, in order. */
  function ErrorsIn(rs: seq<Result<Option<Token>, ExecError>>): seq<ExecError>
  {
    if |rs| == 0 then []
    else (if rs[0].Err? then [rs[0].error] else []) + ErrorsIn(rs[1..])
  }

  /** What `scan` returns for the results `rs` of its `scan_token` calls. */
  function Outcome(rs: seq<Result<Option<Token>, ExecError>>): MaybeErrors<seq<Token>>
  {
    if |ErrorsIn(rs)| > 0 then Errors(ErrorsIn(rs)) else Results(TokensIn(rs))
  }

  /** What `Scanner::new(src, path).scan()` returns. */
  function ScanResult(src: string, path: string): MaybeErrors<seq<Token>>
  {
    Outcome(Trace(src, path, 0, 1))
  }

  /** One `scan_token` call and the rest of the run. */
  lemma TraceStep(src: string, path: string, pos: nat, l: nat)
    requires pos < |src|
    ensures var st := TokenStep(src, path, pos, l);
      var rest := Trace(src, path, st.next, st.line);
      && TokensIn(Trace(src, path, pos, l)) == (if st.result.Ok? && st.result.value.Some? then [st.result.value.value] else []) + TokensIn(rest)
      && ErrorsIn(Trace(src, path, pos, l)) == (if st.result.Err? then [st.result.error] else []) + ErrorsIn(rest)
  {
    var st := TokenStep(src, path, pos, l);
    var rs := Trace(src, path, pos, l);
    assert rs == [st.result] + Trace(src, path, st.next, st.line);
    assert rs[1..] == Trace(src, path, st.next, st.line);
  }
}
