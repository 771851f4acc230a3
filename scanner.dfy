/** The scanner object of `lib/src/scanner.rs`: a cursor (`current`), the
    start of the token being scanned (`start`) and the line number, moved
    forward by `advance` while each `scan_*` routine runs its loop. Every
    routine is proved to leave the cursor and line where the functions of
    `ScanSpec` say and to return what they say. */
module Scanning {
  import opened Objects
  import opened Tokens
  import opened Errors
  import opened ScannerChars
  import opened ScanSpec

  class Scanner {
    const source: string
    const path: string
    var current: nat
    var start: nat
    var line: nat

    /** `Scanner::new`: the cursor at the first character, on line 1. */
    constructor(source: string, path: string)
      ensures this.source == source && this.path == path
      ensures current == 0 && start == 0 && line == 1
    {
      this.source := source;
      this.path := path;
      current := 0;
      start := 0;
      line := 1;
    }

    /** `peek`: the character under the cursor, NUL at or past the end. */
    function Peek(): (c: char)
      reads this
      ensures current < |source| ==> c == source[current]
      ensures current >= |source| ==> c == '\0'
    {
      CharAt(source, current)
    }

    /** `peek_next`: the character after the cursor. Its bounds test only
        repeats what reading past the end gives anyway. */
    function PeekNext(): (c: char)
      reads this
      ensures c == CharAt(source, current + 1)
    {
      if current + 1 >= |source| then '\0' else CharAt(source, current + 1)
    }

    predicate IsAtEnd()
      reads this
    {
      current >= |source|
    }

    /** `advance`: moves the cursor one character and returns the one it passed. */
    method Advance() returns (c: char)
      modifies this
      ensures current == old(current) + 1 && c == CharAt(source, old(current))
      ensures start == old(start) && line == old(line)
    {
      current := current + 1;
      c := CharAt(source, current - 1);
    }

    /** `is_match`: consumes the next character iff it is `expected`. */
    method IsMatch(expected: char) returns (b: bool)
      modifies this
      ensures b <==> CharAt(source, old(current)) == expected
      ensures current == if b then old(current) + 1 else old(current)
      ensures start == old(start) && line == old(line)
    {
      if Peek() == expected {
        var _ := Advance();
        return true;
      }
      return false;
    }

    /** `scan`: calls `scan_token` until the cursor reaches the end,
        keeping every token and every error. */
    method Scan() returns (r: MaybeErrors<seq<Token>>)
      modifies this
      ensures r == Outcome(Trace(source, path, old(current), old(line)))
    {
      var tokens: seq<Token> := [];
      var errors: seq<ExecError> := [];
      ghost var rs := Trace(source, path, current, line);
      assert [] + TokensIn(rs) == TokensIn(rs);
      while !IsAtEnd()
        invariant tokens + TokensIn(Trace(source, path, current, line)) == TokensIn(rs)
        invariant errors + ErrorsIn(Trace(source, path, current, line)) == ErrorsIn(rs)
        decreases |source| - current
      {
        TraceStep(source, path, current, line);
        ghost var ts := TokensIn(Trace(source, path, current, line));
        ghost var es := ErrorsIn(Trace(source, path, current, line));
        var res := ScanToken();
        ghost var ts' := TokensIn(Trace(source, path, current, line));
        ghost var es' := ErrorsIn(Trace(source, path, current, line));
        match res {
          case Ok(Some(token)) =>
            assert ts == [token] + ts' && es == es';
            assert (tokens + [token]) + ts' == tokens + ([token] + ts');
            tokens := tokens + [token];
            assert tokens + ts' == TokensIn(rs);
          case Ok(None) =>
            assert ts == [] + ts' && es == [] + es';
            assert ts == ts' && es == es';
          case Err(err) =>
            assert es == [err] + es' && ts == [] + ts';
            assert (errors + [err]) + es' == errors + ([err] + es');
            errors := errors + [err];
            assert ts == ts';
        }
      }
      assert Trace(source, path, current, line) == [];
      assert tokens + [] == tokens;
      assert errors + [] == errors;
      if |errors| > 0 {
        return Errors(errors);
      }
      return Results(tokens);
    }

    /** `scan_token`: one token, nothing (blank, newline, comment) or an error. */
    method ScanToken() returns (r: Result<Option<Token>, ExecError>)
      modifies this
      ensures var st := TokenStep(source, path, old(current), old(line));
        r == st.result && current == st.next && line == st.line
      ensures start == old(current)
    {
      start := current;
      var c := Advance();
      if c == ' ' || c == '\r' {
        return Ok(None);
      } else if c == '\n' {
        line := line + 1;
        return Ok(None);
      } else if c == '#' {
        while Peek() != '\n' && !IsAtEnd()
          invariant start < current && start == old(current) && line == old(line)
          invariant CommentEnd(source, current) == CommentEnd(source, start + 1)
          decreases |source| - current
        {
          var _ := Advance();
        }
        return Ok(None);
      } else if c == '\'' {
        return Ok(Some(Token(Quote, Nil, "'", line, start, path)));
      } else if c == '"' {
        var t := ScanStr(c);
        match t {
          case Ok(token) => return Ok(Some(token));
          case Err(err) => return Err(err);
        }
      } else if c == '(' {
        return Ok(Some(Token(LParen, Nil, "(", line, start, path)));
      } else if c == ')' {
        return Ok(Some(Token(RParen, Nil, ")", line, start, path)));
      } else if c == '\0' {
        return Ok(Some(Token(EndOfFile, Nil, "(", line, start, path)));
      } else if IsDigit(c) {
        var t := ScanNumber(c);
        match t {
          case Ok(token) => return Ok(Some(token));
          case Err(err) => return Err(err);
        }
      } else if IsAlpha(c) {
        SkipClass(AlphaNum);
        var atom := source[start..current];
        return Ok(Some(Token(TokenKind.Atom, Object.Atom(atom), atom, line, start, path)));
      } else {
        return Err(ExecError(InvalidToken, Token(Invalid, Nil, "", line, start, path)));
      }
    }

    /** `scan_str`: the characters up to the closing `quote`, a backslash
        stepping over the character after it. */
    method ScanStr(quote: char) returns (r: Result<Token, ExecError>)
      requires start < |source| && current == start + 1 && source[start] == quote
      modifies this
      ensures var x := StrLexed(source, path, old(start), old(line));
        r == x.result && current == x.next && line == x.line
      ensures start == old(start)
    {
      while Peek() != quote && !IsAtEnd()
        invariant start == old(start) && start + 1 <= current <= |source| + 1
        invariant StrScan(source, quote, current, line) == StrScan(source, quote, start + 1, old(line))
        decreases |source| + 1 - current
      {
        if Peek() == '\n' {
          line := line + 1;
        }
        if Peek() == '\\' {
          var _ := Advance();
        }
        var _ := Advance();
      }
      if IsAtEnd() {
        return Err(ExecError(UnterminatedString, Token(Invalid, Nil, "", line, start, path)));
      }
      var _ := Advance();
      var unescaped := Unescape(source[start + 1..current - 1]);
      var lexeme := Unescape(source[start..current]);
      return Ok(Token(TokenKind.Str, Object.Str(unescaped), lexeme, line, start, path));
    }

    /** `scan_number`: a `0x` or `0b` prefix selects hex or binary, anything else is decimal. */
    method ScanNumber(c: char) returns (r: Result<Token, ExecError>)
      requires start < |source| && current == start + 1 && source[start] == c
      modifies this
      ensures var x := NumberLexed(source, path, old(start), old(line));
        r == x.result && current == x.next && line == x.line
      ensures start == old(start)
    {
      var matched := false;
      if c == '0' {
        matched := IsMatch('x');
      }
      if matched {
        r := ScanHex(c);
        return;
      }
      if c == '0' {
        matched := IsMatch('b');
      }
      if matched {
        r := ScanBin(c);
      } else {
        r := ScanDec(c);
      }
    }

    /** The `while is_class(peek()) { advance() }` loops of `scan_token`,
        `scan_hex`, `scan_bin` and `scan_dec`. */
    method SkipClass(k: CharClass)
      requires current <= |source|
      modifies this
      ensures current == SkipWhile(source, old(current), k) && current <= |source|
      ensures start == old(start) && line == old(line)
    {
      while InClass(Peek(), k)
        invariant start == old(start) && line == old(line) && old(current) <= current <= |source|
        invariant SkipWhile(source, current, k) == SkipWhile(source, old(current), k)
        decreases |source| - current
      {
        var _ := Advance();
      }
    }

    /** `scan_hex`: hex digits, then the rest of the numeral. */
    method ScanHex(c: char) returns (r: Result<Token, ExecError>)
      requires start + 2 <= |source| && current == start + 2
      modifies this
      ensures start == old(start) && line == old(line) && start + 2 <= current <= |source|
      ensures current == RunEnd(source, SkipWhile(source, old(current), Hex))
      ensures r == NumberResult(source, path, start, 2, current, TokenKind.Number, 16, line, "0x")
    {
      SkipClass(Hex);
      r := GetNum("0x", 2, TokenKind.Number, 16);
    }

    /** `scan_bin`: binary digits, then the rest of the numeral. */
    method ScanBin(c: char) returns (r: Result<Token, ExecError>)
      requires start + 2 <= |source| && current == start + 2
      modifies this
      ensures start == old(start) && line == old(line) && start + 2 <= current <= |source|
      ensures current == RunEnd(source, SkipWhile(source, old(current), Binary))
      ensures r == NumberResult(source, path, start, 2, current, TokenKind.Number, 2, line, "0b")
    {
      SkipClass(Binary);
      r := GetNum("0b", 2, TokenKind.Number, 2);
    }

    /** `scan_dec`: digits, a fraction if a dot and a digit follow, then the
        rest of the numeral. */
    method ScanDec(c: char) returns (r: Result<Token, ExecError>)
      requires start < |source| && current == start + 1
      modifies this
      ensures start == old(start) && line == old(line) && start < current <= |source|
      ensures var sh := DecShape(source, start);
        current == RunEnd(source, sh.digitsEnd) && r == NumberResult(source, path, start, 0, current, sh.kind, 10, line, "")
    {
      var startOffset := 0;
      var tokenKind := TokenKind.Number;
      SkipClass(Digit);
      if Peek() == '.' && IsDigit(PeekNext()) {
        var _ := Advance();
        tokenKind := TokenKind.Real;
        SkipClass(Digit);
      }
      r := GetNum("", startOffset, tokenKind, 10);
    }

    /** `get_num`: runs to the next space, tab or newline and parses the
        text after the prefix. */
    method GetNum(prefix: string, startOffset: nat, tokenKind: TokenKind, radix: nat) returns (r: Result<Token, ExecError>)
      requires start + startOffset <= current <= |source|
      modifies this
      ensures current == RunEnd(source, old(current)) && start == old(start) && line == old(line)
      ensures r == NumberResult(source, path, start, startOffset, current, tokenKind, radix, line, prefix)
    {
      while Peek() != ' ' && Peek() != '\t' && Peek() != '\n' && !IsAtEnd()
        invariant start == old(start) && line == old(line) && old(current) <= current <= |source|
        invariant RunEnd(source, current) == RunEnd(source, old(current))
        decreases |source| - current
      {
        var _ := Advance();
      }
      var number := source[start + startOffset..current];
      var failed := Err(ExecError(NumberParseError, Token(Invalid, Nil, number, line, start, path)));
      if tokenKind == TokenKind.Real {
        if !IsRealText(number) {
          return failed;
        }
        return Ok(Token(tokenKind, Object.Real(number), prefix + number, line, start, path));
      } else {
        var num := StrToNum(number, radix);
        if num.None? {
          return failed;
        }
        return Ok(Token(tokenKind, Object.Number(num.value), prefix + number, line, start, path));
      }
    }
  }
}
