/** Concrete inputs from the scanner's unit tests in `lib/src/scanner.rs`,
    worked through the scanning functions of `ScanSpec`. */
module ScanExamples {
  import opened Objects
  import opened Tokens
  import opened Errors
  import opened ScannerChars
  import opened ScanSpec
  import opened ScanProps

  /** A text that `scan_token` consumes in one call scans to that call's
      token, to nothing, or to its one error. */
  lemma OneStepRun(src: string, p: string)
    requires |src| > 0 && TokenStep(src, p, 0, 1).next >= |src|
    ensures var st := TokenStep(src, p, 0, 1);
      ScanResult(src, p) == match st.result
        case Ok(Some(t)) => Results([t])
        case Ok(None) => Results([])
        case Err(e) => Errors([e])
  {
    var st := TokenStep(src, p, 0, 1);
    assert Trace(src, p, st.next, st.line) == [];
    assert Trace(src, p, 0, 1) == [st.result];
    assert [st.result][1..] == [];
    assert TokensIn([]) == [] && ErrorsIn([]) == [];
    assert TokensIn([st.result]) == (if st.result.Ok? && st.result.value.Some? then [st.result.value.value] else []) + TokensIn([]);
    assert ErrorsIn([st.result]) == (if st.result.Err? then [st.result.error] else []) + ErrorsIn([]);
    match st.result {
      case Ok(Some(t)) =>
        assert TokensIn([st.result]) == [t] && ErrorsIn([st.result]) == [];
      case Ok(None) =>
        assert TokensIn([st.result]) == [] && ErrorsIn([st.result]) == [];
      case Err(e) =>
        assert ErrorsIn([st.result]) == [e];
    }
  }

  /** `scan_token` on a digit scans a numeral. */
  lemma DigitStep(src: string, p: string)
    requires |src| > 0 && IsDigit(src[0])
    ensures TokenStep(src, p, 0, 1) == FromLexed(NumberLexed(src, p, 0, 1))
  {
  }

  /** `scan_token` on a double quote scans a string. */
  lemma QuoteStep(src: string, p: string)
    requires |src| > 0 && src[0] == '"'
    ensures TokenStep(src, p, 0, 1) == FromLexed(StrLexed(src, p, 0, 1))
  {
  }

  /** `@` is not a token character: the run fails with one `InvalidToken`. */
  lemma AtExample(p: string)
    ensures ScanResult("@", p) == Errors([ExecError(InvalidToken, Token(TokenKind.Invalid, Nil, "", 1, 0, p))])
  {
    InvalidIff("@", p, 0, 1);
    OneStepRun("@", p);
  }

  /** `'` is a quote token. */
  lemma QuoteExample(p: string)
    ensures ScanResult("'", p) == Results([Token(Quote, Nil, "'", 1, 0, p)])
  {
    OneStepRun("'", p);
  }

  /** `)` is a right parenthesis. */
  lemma RParenExample(p: string)
    ensures ScanResult(")", p) == Results([Token(RParen, Nil, ")", 1, 0, p)])
  {
    OneStepRun(")", p);
  }

  /** `(` is a left parenthesis. */
  lemma LParenExample(p: string)
    ensures ScanResult("(", p) == Results([Token(LParen, Nil, "(", 1, 0, p)])
  {
    OneStepRun("(", p);
  }

  /** The numeral step of `0b101`: the number 5, its lexeme keeps the prefix. */
  lemma Bin101Lexed(p: string)
    ensures NumberLexed("0b101", p, 0, 1) == Lexed(Ok(Token(TokenKind.Number, Object.Number(5), "0b101", 1, 0, p)), 5, 1)
  {
    var src := "0b101";
    assert SkipWhile(src, 2, Binary) == 5;
    assert RunEnd(src, 5) == 5;
    assert src[2..5] == "101";
    assert DigitsValue("1", 2) == Some(1);
    assert DigitsValue("10", 2) == Some(2);
    assert DigitsValue("101", 2) == Some(5);
    assert StrToNum("101", 2) == Some(5);
    assert NumberShape(src, 0) == NumShape(2, 5, TokenKind.Number, 2, "0b");
    assert "0b" + "101" == src;
  }

  /** `0b101` scans to the one number 5. */
  lemma Bin101(p: string)
    ensures ScanResult("0b101", p) == Results([Token(TokenKind.Number, Object.Number(5), "0b101", 1, 0, p)])
  {
    Bin101Lexed(p);
    DigitStep("0b101", p);
    OneStepRun("0b101", p);
  }

  /** The numeral step of `0b102`: it runs to the end and fails to parse in base 2. */
  lemma Bin102Lexed(p: string)
    ensures NumberLexed("0b102", p, 0, 1) == Lexed(Err(ExecError(NumberParseError, Token(TokenKind.Invalid, Nil, "102", 1, 0, p))), 5, 1)
  {
    var src := "0b102";
    assert SkipWhile(src, 2, Binary) == 4;
    assert RunEnd(src, 4) == 5;
    assert src[2..5] == "102";
    DigitsValueSome("102", 2);
    assert DigitValue("102"[2], 2) == None;
  }

  /** `0b102` scans to one `NumberParseError`. */
  lemma Bin102(p: string)
    ensures ScanResult("0b102", p) == Errors([ExecError(NumberParseError, Token(TokenKind.Invalid, Nil, "102", 1, 0, p))])
  {
    Bin102Lexed(p);
    DigitStep("0b102", p);
    OneStepRun("0b102", p);
  }

  /** The numeral step of `1a23`: it runs to the end and fails to parse in base 10. */
  lemma Dec1a23Lexed(p: string)
    ensures NumberLexed("1a23", p, 0, 1) == Lexed(Err(ExecError(NumberParseError, Token(TokenKind.Invalid, Nil, "1a23", 1, 0, p))), 4, 1)
  {
    var src := "1a23";
    assert SkipWhile(src, 1, Digit) == 1;
    assert RunEnd(src, 1) == 4;
    assert src[0..4] == src;
    DigitsValueSome(src, 10);
    assert DigitValue(src[1], 10) == None;
  }

  /** `1a23` scans to one `NumberParseError`. */
  lemma Dec1a23(p: string)
    ensures ScanResult("1a23", p) == Errors([ExecError(NumberParseError, Token(TokenKind.Invalid, Nil, "1a23", 1, 0, p))])
  {
    Dec1a23Lexed(p);
    DigitStep("1a23", p);
    OneStepRun("1a23", p);
  }

  /** The numeral step of `0xa123e`: the number 0xa123e, its lexeme keeps the prefix. */
  lemma HexGoodLexed(p: string)
    ensures NumberLexed("0xa123e", p, 0, 1) == Lexed(Ok(Token(TokenKind.Number, Object.Number(0xa123e), "0xa123e", 1, 0, p)), 7, 1)
  {
    var src := "0xa123e";
    assert SkipWhile(src, 2, Hex) == 7;
    assert RunEnd(src, 7) == 7;
    assert src[2..7] == "a123e";
    assert DigitsValue("a", 16) == Some(0xa);
    assert DigitsValue("a1", 16) == Some(0xa1);
    assert DigitsValue("a12", 16) == Some(0xa12);
    assert "a123"[..3] == "a12";
    assert DigitsValue("a123", 16) == Some(0xa123);
    assert "a123e"[..4] == "a123";
    assert DigitsValue("a123e", 16) == Some(0xa123e);
    assert StrToNum("a123e", 16) == Some(0xa123e);
    assert NumberShape(src, 0) == NumShape(2, 7, TokenKind.Number, 16, "0x");
    assert "0x" + "a123e" == src;
  }

  /** `0xa123e` scans to the one number 0xa123e. */
  lemma HexGood(p: string)
    ensures ScanResult("0xa123e", p) == Results([Token(TokenKind.Number, Object.Number(0xa123e), "0xa123e", 1, 0, p)])
  {
    HexGoodLexed(p);
    DigitStep("0xa123e", p);
    OneStepRun("0xa123e", p);
  }

  /** The numeral step of `0xag123e`: it runs to the end and fails to parse in base 16. */
  lemma HexBadLexed(p: string)
    ensures NumberLexed("0xag123e", p, 0, 1) == Lexed(Err(ExecError(NumberParseError, Token(TokenKind.Invalid, Nil, "ag123e", 1, 0, p))), 8, 1)
  {
    var src := "0xag123e";
    assert SkipWhile(src, 2, Hex) == 3;
    assert RunEnd(src, 3) == 8;
    var d := src[2..8];
    assert d == "ag123e";
    DigitsValueSome(d, 16);
    assert DigitValue(d[1], 16) == None;
  }

  /** `0xag123e` scans to one `NumberParseError`. */
  lemma HexBad(p: string)
    ensures ScanResult("0xag123e", p) == Errors([ExecError(NumberParseError, Token(TokenKind.Invalid, Nil, "ag123e", 1, 0, p))])
  {
    HexBadLexed(p);
    DigitStep("0xag123e", p);
    OneStepRun("0xag123e", p);
  }

  /** The numeral step of `3.1415`: a real whose text is the numeral. */
  lemma RealLexed(p: string)
    ensures NumberLexed("3.1415", p, 0, 1) == Lexed(Ok(Token(TokenKind.Real, Object.Real("3.1415"), "3.1415", 1, 0, p)), 6, 1)
  {
    var src := "3.1415";
    assert SkipWhile(src, 1, Digit) == 1;
    assert SkipWhile(src, 2, Digit) == 6;
    assert DecShape(src, 0) == NumShape(0, 6, TokenKind.Real, 10, "");
    assert NumberShape(src, 0) == DecShape(src, 0);
    assert RunEnd(src, 6) == 6;
    assert src[0..6] == src;
    assert SkipWhile(src, 0, Digit) == 1;
    assert IsRealText(src);
    assert "" + src == src;
  }

  /** `3.1415` scans to one real whose text is the numeral. */
  lemma RealExample(p: string)
    ensures ScanResult("3.1415", p) == Results([Token(TokenKind.Real, Object.Real("3.1415"), "3.1415", 1, 0, p)])
  {
    RealLexed(p);
    DigitStep("3.1415", p);
    OneStepRun("3.1415", p);
  }

  lemma CommentEndExample()
    ensures CommentEnd("# comment\n(", 1) == 9
  {
    var src := "# comment\n(";
    CommentEndRun(src, 1);
  }

  /** A comment and its newline produce nothing; the `(` after them is on
      line 2 at offset 10. */
  lemma CommentLine(p: string)
    ensures ScanResult("# comment\n(", p) == Results([Token(LParen, Nil, "(", 2, 10, p)])
  {
    var src := "# comment\n(";
    CommentSkipped(src, p, 0, 1);
    CommentEndExample();
    assert |src| == 11 && src[9] == '\n' && src[10] == '(';
    TraceStep(src, p, 10, 2);
    assert TokenStep(src, p, 10, 2) == Step(Ok(Some(Token(LParen, Nil, "(", 2, 10, p))), 11, 2);
    assert Trace(src, p, 11, 2) == [];
    assert TokensIn(Trace(src, p, 10, 2)) == [Token(LParen, Nil, "(", 2, 10, p)];
    assert ErrorsIn(Trace(src, p, 10, 2)) == [];
  }

  /** The first numeral of `123 456`. */
  lemma TwoNumbersFirst(p: string)
    ensures TokenStep("123 456", p, 0, 1) == Step(Ok(Some(Token(TokenKind.Number, Object.Number(123), "123", 1, 0, p))), 3, 1)
  {
    var src := "123 456";
    assert SkipWhile(src, 1, Digit) == 3 && RunEnd(src, 3) == 3 && src[0..3] == "123";
    assert DigitsValue("1", 10) == Some(1);
    assert DigitsValue("12", 10) == Some(12);
    assert DigitsValue("123", 10) == Some(123);
    assert StrToNum("123", 10) == Some(123);
    assert NumberShape(src, 0) == NumShape(0, 3, TokenKind.Number, 10, "");
    assert "" + "123" == "123";
  }

  /** The second numeral of `123 456`, at offset 4. */
  lemma TwoNumbersSecond(p: string)
    ensures TokenStep("123 456", p, 4, 1) == Step(Ok(Some(Token(TokenKind.Number, Object.Number(456), "456", 1, 4, p))), 7, 1)
  {
    var src := "123 456";
    assert SkipWhile(src, 5, Digit) == 7 && RunEnd(src, 7) == 7 && src[4..7] == "456";
    assert DigitsValue("4", 10) == Some(4);
    assert DigitsValue("45", 10) == Some(45);
    assert DigitsValue("456", 10) == Some(456);
    assert StrToNum("456", 10) == Some(456);
    assert NumberShape(src, 4) == NumShape(0, 7, TokenKind.Number, 10, "");
    assert "" + "456" == "456";
  }

  /** Two numerals separated by a space give two tokens, in order. */
  lemma TwoNumbers(p: string)
    ensures ScanResult("123 456", p) == Results([Token(TokenKind.Number, Object.Number(123), "123", 1, 0, p), Token(TokenKind.Number, Object.Number(456), "456", 1, 4, p)])
  {
    var src := "123 456";
    TwoNumbersFirst(p);
    TwoNumbersSecond(p);
    TraceStep(src, p, 0, 1);
    BlankStep(src, p, 3, 1);
    TraceStep(src, p, 4, 1);
    var t1 := Token(TokenKind.Number, Object.Number(123), "123", 1, 0, p);
    var t2 := Token(TokenKind.Number, Object.Number(456), "456", 1, 4, p);
    assert Trace(src, p, 7, 1) == [];
    assert TokensIn(Trace(src, p, 4, 1)) == [t2] && ErrorsIn(Trace(src, p, 4, 1)) == [];
    assert TokensIn(Trace(src, p, 3, 1)) == [t2] && ErrorsIn(Trace(src, p, 3, 1)) == [];
    assert TokensIn(Trace(src, p, 0, 1)) == [t1] + [t2];
    assert ErrorsIn(Trace(src, p, 0, 1)) == [];
    assert [t1] + [t2] == [t1, t2];
    assert ScanResult(src, p) == Results([t1, t2]);
  }

  /** A bare word is an atom whose payload is its text. */
  lemma AtomExample(p: string)
    ensures ScanResult("atom", p) == Results([Token(TokenKind.Atom, Object.Atom("atom"), "atom", 1, 0, p)])
  {
    var src := "atom";
    assert SkipWhile(src, 1, AlphaNum) == 4;
    assert src[0..4] == src;
    OneStepRun(src, p);
  }

  /** Text without a newline counts no lines. */
  lemma {:induction false} NoNewlines(s: string)
    requires forall m | 0 <= m < |s| :: s[m] != '\n'
    ensures Newlines(s) == 0
  {
    if |s| > 0 {
      NoNewlines(s[1..]);
    }
  }

  /** Characters that may stand between the quotes of a one-line string
      without escapes. */
  predicate PlainText(w: string)
  {
    forall m | 0 <= m < |w| :: w[m] != '"' && w[m] != '\\' && w[m] != '\n'
  }

  /** The quoted text of `PlainText` as a source: its quotes and the
      characters between them. */
  lemma QuotedParts(w: string)
    requires PlainText(w)
    ensures var src := "\"" + w + "\"";
      src[0] == '"' && src[|w| + 1] == '"' && src[1..|w| + 1] == w && src[0..|w| + 2] == src &&
      forall m | 0 < m < |w| + 1 :: src[m] != '"' && src[m] != '\\'
  {
    var src := "\"" + w + "\"";
    assert forall m | 0 < m < |w| + 1 :: src[m] == w[m - 1];
  }

  /** A one-line string without escapes scans to one string token: the
      literal is the text between the quotes, the lexeme keeps them. */
  lemma PlainString(w: string, p: string)
    requires PlainText(w)
    ensures ScanResult("\"" + w + "\"", p) == Results([Token(TokenKind.Str, Object.Str(w), "\"" + w + "\"", 1, 0, p)])
  {
    var src := "\"" + w + "\"";
    QuotedParts(w);
    StrPlain(src, p, 0, |w| + 1, 1);
    NoNewlines(w);
    QuoteStep(src, p);
    OneStepRun(src, p);
  }

  /** A one-line string without escapes and without its closing quote
      scans to one `UnterminatedString` at the opening quote. */
  lemma PlainUnterminated(w: string, p: string)
    requires PlainText(w)
    ensures ScanResult("\"" + w, p) == Errors([ExecError(UnterminatedString, Token(TokenKind.Invalid, Nil, "", 1, 0, p))])
  {
    var src := "\"" + w;
    assert src[0] == '"';
    assert forall m | 0 < m < |src| :: src[m] == w[m - 1];
    StrUnterminated(src, p, 0, 1);
    assert src[1..] == w;
    NoNewlines(w);
    QuoteStep(src, p);
    OneStepRun(src, p);
  }

  /** The text of the string tests, and the two inputs built from it. */
  lemma HelloText()
    ensures PlainText("Hello World!")
    ensures "\"" + "Hello World!" == "\"Hello World!"
    ensures "\"Hello World!" + "\"" == "\"Hello World!\""
  {
    var w := "Hello World!";
    assert forall m | 0 <= m < |w| :: w[m] != '"' && w[m] != '\\' && w[m] != '\n';
  }

  /** `"Hello World!"` scans to one string token. */
  lemma StringExample(p: string)
    ensures ScanResult("\"Hello World!\"", p) == Results([Token(TokenKind.Str, Object.Str("Hello World!"), "\"Hello World!\"", 1, 0, p)])
  {
    HelloText();
    PlainString("Hello World!", p);
  }

  /** `"Hello World!` with no closing quote scans to one `UnterminatedString`. */
  lemma UnterminatedExample(p: string)
    ensures ScanResult("\"Hello World!", p) == Errors([ExecError(UnterminatedString, Token(TokenKind.Invalid, Nil, "", 1, 0, p))])
  {
    HelloText();
    PlainUnterminated("Hello World!", p);
  }

  /** An escaped quote does not close the string: the payload is the
      unescaped text between the quotes and the lexeme keeps the quotes. */
  lemma EscapedQuoteExample(p: string)
    ensures StrLexed("\"a\\\"\"", p, 0, 1).result == Ok(Token(TokenKind.Str, Object.Str("a\""), "\"a\"\"", 1, 0, p))
  {
    var src := "\"a\\\"\"";
    assert |src| == 5 && src[2] == '\\' && src[4] == '"';
    assert StrScan(src, '"', 1, 1) == (4, 1);
    assert src[1..4] == "a\\\"" && src[0..5] == src;
    UnescapedEscape('"', "");
    assert ['\\', '"'] + "" == "\\\"";
    UnescapedPlain("a", "\\\"");
    assert "a" + "\\\"" == "a\\\"";
    UnescapedPlain("\"", "");
    assert "\"" + "" == "\"";
    UnescapedEscape('"', "\"");
    assert ['\\', '"'] + "\"" == "\\\"\"";
    UnescapedPlain("\"a", "\\\"\"");
    assert "\"a" + "\\\"\"" == src;
    assert Unescaped(src[1..4]) == "a\"";
    assert Unescaped(src[0..5]) == "\"a\"\"";
  }
}
