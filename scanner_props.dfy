/** What a run of the scanner guarantees: no error is dropped, tokens come
    in source order, blanks and comments yield nothing, numerals and strings
    take the shapes the scanner documents, and anything else is an invalid
    token. */
module ScanProps {
  import opened Objects
  import opened Tokens
  import opened Errors
  import opened ScannerChars
  import opened ScanSpec

  // ---------------------------------------------------------------------
  // The outcome of a run

  lemma {:induction false} TokensInMembers(rs: seq<Result<Option<Token>, ExecError>>)
    ensures forall t :: t in TokensIn(rs) <==> exists i | 0 <= i < |rs| :: rs[i] == Ok(Some(t))
  {
    if |rs| > 0 {
      TokensInMembers(rs[1..]);
      forall t ensures t in TokensIn(rs) <==> exists i | 0 <= i < |rs| :: rs[i] == Ok(Some(t)) {
        if exists i | 0 <= i < |rs| :: rs[i] == Ok(Some(t)) {
          var i :| 0 <= i < |rs| && rs[i] == Ok(Some(t));
          if i > 0 {
            assert rs[1..][i - 1] == rs[i];
          }
        }
        if t in TokensIn(rs[1..]) {
          var i :| 0 <= i < |rs[1..]| && rs[1..][i] == Ok(Some(t));
          assert rs[i + 1] == Ok(Some(t));
        }
      }
    }
  }

  lemma {:induction false} ErrorsInMembers(rs: seq<Result<Option<Token>, ExecError>>)
    ensures forall e :: e in ErrorsIn(rs) <==> exists i | 0 <= i < |rs| :: rs[i] == Err(e)
  {
    if |rs| > 0 {
      ErrorsInMembers(rs[1..]);
      forall e ensures e in ErrorsIn(rs) <==> exists i | 0 <= i < |rs| :: rs[i] == Err(e) {
        if exists i | 0 <= i < |rs| :: rs[i] == Err(e) {
          var i :| 0 <= i < |rs| && rs[i] == Err(e);
          if i > 0 {
            assert rs[1..][i - 1] == rs[i];
          }
        }
        if e in ErrorsIn(rs[1..]) {
          var i :| 0 <= i < |rs[1..]| && rs[1..][i] == Err(e);
          assert rs[i + 1] == Err(e);
        }
      }
    }
  }

  /** `scan` reports errors iff some `scan_token` call failed, and then it
      reports every failure; otherwise it returns every token. */
  lemma ScanOutcome(rs: seq<Result<Option<Token>, ExecError>>)
    ensures Outcome(rs).Errors? <==> exists i | 0 <= i < |rs| :: rs[i].Err?
    ensures Outcome(rs).Errors? ==> forall e :: e in Outcome(rs).errors <==> exists i | 0 <= i < |rs| :: rs[i] == Err(e)
    ensures Outcome(rs).Results? ==> forall t :: t in Outcome(rs).results <==> exists i | 0 <= i < |rs| :: rs[i] == Ok(Some(t))
  {
    TokensInMembers(rs);
    ErrorsInMembers(rs);
    if |ErrorsIn(rs)| > 0 {
      assert ErrorsIn(rs)[0] in ErrorsIn(rs);
    }
    if exists i | 0 <= i < |rs| :: rs[i].Err? {
      var i :| 0 <= i < |rs| && rs[i].Err?;
      assert rs[i] == Err(rs[i].error);
      assert rs[i].error in ErrorsIn(rs);
    }
  }

  /** Tokens of a run from `pos` on line `l` lie in the source past `pos`,
      in strictly increasing order of `start`, with non-decreasing lines. */
  lemma {:induction false} TokensInOrder(src: string, path: string, pos: nat, l: nat)
    decreases |src| - pos
    ensures var ts := TokensIn(Trace(src, path, pos, l));
      && (forall i | 0 <= i < |ts| :: pos <= ts[i].start < |src| && l <= ts[i].line)
      && (forall i, j | 0 <= i < j < |ts| :: ts[i].start < ts[j].start && ts[i].line <= ts[j].line)
  {
    if pos < |src| {
      var st := TokenStep(src, path, pos, l);
      TraceStep(src, path, pos, l);
      TokensInOrder(src, path, st.next, st.line);
    }
  }

  /** The same for the errors of a run. */
  lemma {:induction false} ErrorsInOrder(src: string, path: string, pos: nat, l: nat)
    decreases |src| - pos
    ensures var es := ErrorsIn(Trace(src, path, pos, l));
      && (forall i | 0 <= i < |es| :: pos <= es[i].token.start < |src| && l <= es[i].token.line)
      && (forall i, j | 0 <= i < j < |es| :: es[i].token.start < es[j].token.start)
  {
    if pos < |src| {
      var st := TokenStep(src, path, pos, l);
      TraceStep(src, path, pos, l);
      ErrorsInOrder(src, path, st.next, st.line);
    }
  }

  // ---------------------------------------------------------------------
  // Text that yields nothing

  /** The number of newlines in `s`. */
  function Newlines(s: string): nat
  {
    if |s| == 0 then 0 else (if s[0] == '\n' then 1 else 0) + Newlines(s[1..])
  }

  predicate IsBlank(c: char)
  {
    c == ' ' || c == '\r' || c == '\n'
  }

  /** `scan_token` on a blank or a `#` yields nothing. */
  lemma StepNothing(src: string, path: string, s: nat, l: nat)
    requires s < |src| && (IsBlank(src[s]) || src[s] == '#')
    ensures TokenStep(src, path, s, l) ==
      if src[s] == '#' then Step(Ok(None), CommentEnd(src, s + 1), l)
      else Step(Ok(None), s + 1, if src[s] == '\n' then l + 1 else l)
  {
  }

  /** A run of spaces, carriage returns and newlines produces nothing; the
      line grows by the number of newlines in it. */
  lemma {:induction false} BlanksSkipped(src: string, path: string, pos: nat, q: nat, l: nat)
    requires pos <= q <= |src|
    requires forall m | pos <= m < q :: IsBlank(src[m])
    decreases q - pos
    ensures TokensIn(Trace(src, path, pos, l)) == TokensIn(Trace(src, path, q, l + Newlines(src[pos..q])))
    ensures ErrorsIn(Trace(src, path, pos, l)) == ErrorsIn(Trace(src, path, q, l + Newlines(src[pos..q])))
  {
    if pos < q {
      var l' := if src[pos] == '\n' then l + 1 else l;
      BlankStep(src, path, pos, l);
      BlanksSkipped(src, path, pos + 1, q, l');
      assert src[pos..q][1..] == src[pos + 1..q];
      assert Newlines(src[pos..q]) == (if src[pos] == '\n' then 1 else 0) + Newlines(src[pos + 1..q]);
    } else {
      assert src[pos..q] == [];
    }
  }

  /** A `#` comment produces nothing and ends at the next newline, which
      then counts as one line. A comment running to the end of the input
      ends the run. */
  lemma CommentSkipped(src: string, path: string, pos: nat, l: nat)
    requires pos < |src| && src[pos] == '#'
    ensures var e := CommentEnd(src, pos + 1);
      && (forall m | pos < m < e :: m < |src| && src[m] != '\n')
      && (e >= |src| ==> TokensIn(Trace(src, path, pos, l)) == [] && ErrorsIn(Trace(src, path, pos, l)) == [])
      && (e < |src| ==>
            && src[e] == '\n'
            && TokensIn(Trace(src, path, pos, l)) == TokensIn(Trace(src, path, e + 1, l + 1))
            && ErrorsIn(Trace(src, path, pos, l)) == ErrorsIn(Trace(src, path, e + 1, l + 1)))
  {
    var e := CommentEnd(src, pos + 1);
    CommentEndRun(src, pos + 1);
    CommentStep(src, path, pos, l);
    if e < |src| {
      BlankStep(src, path, e, l);
    }
  }

  /** A blank yields nothing and leaves the rest of the run as it was. */
  lemma BlankStep(src: string, path: string, s: nat, l: nat)
    requires s < |src| && IsBlank(src[s])
    ensures var l' := if src[s] == '\n' then l + 1 else l;
      && TokensIn(Trace(src, path, s, l)) == TokensIn(Trace(src, path, s + 1, l'))
      && ErrorsIn(Trace(src, path, s, l)) == ErrorsIn(Trace(src, path, s + 1, l'))
  {
    TraceStep(src, path, s, l);
    StepNothing(src, path, s, l);
  }

  /** A comment yields nothing and the run goes on where the comment ends. */
  lemma CommentStep(src: string, path: string, s: nat, l: nat)
    requires s < |src| && src[s] == '#'
    ensures TokensIn(Trace(src, path, s, l)) == TokensIn(Trace(src, path, CommentEnd(src, s + 1), l))
    ensures ErrorsIn(Trace(src, path, s, l)) == ErrorsIn(Trace(src, path, CommentEnd(src, s + 1), l))
  {
    TraceStep(src, path, s, l);
    StepNothing(src, path, s, l);
  }

  // ---------------------------------------------------------------------
  // Numerals

  /** Characters of the scanned classes never end a numeral. */
  lemma {:induction false} RunEndSkip(src: string, i: nat, k: CharClass)
    decreases |src| - i
    ensures RunEnd(src, SkipWhile(src, i, k)) == RunEnd(src, i)
  {
    if i < |src| && InClass(src[i], k) {
      RunEndSkip(src, i + 1, k);
      assert RunEnd(src, i) == RunEnd(src, i + 1);
    }
  }

  /** A numeral runs from its first digit to the next space, tab or
      newline (or the end), its lexeme is exactly that text, and when it
      fails the error is `NumberParseError` at its start. */
  lemma NumberRun(src: string, path: string, s: nat, l: nat)
    requires s < |src| && IsDigit(src[s])
    ensures var x := NumberLexed(src, path, s, l);
      && x.next == RunEnd(src, s) && x.line == l
      && (x.result.Ok? ==> var t := x.result.value;
            t.lexeme == src[s..x.next] && t.start == s && t.line == l
            && (t.kind == TokenKind.Number || t.kind == TokenKind.Real))
      && (x.result.Err? ==> x.result.error.errorType == NumberParseError && x.result.error.token.start == s)
  {
    var sh := NumberShape(src, s);
    ShapeRun(src, s);
    var e := RunEnd(src, s);
    assert sh.prefix + src[s + sh.off..e] == src[s..e];
  }

  /** Whatever shape the scanning loops pick, the numeral still ends where
      its run ends, and the prefix and the digits put back together give
      the run's text. */
  lemma ShapeRun(src: string, s: nat)
    requires s < |src| && IsDigit(src[s])
    ensures var sh := NumberShape(src, s);
      && RunEnd(src, sh.digitsEnd) == RunEnd(src, s)
      && sh.prefix + src[s + sh.off..RunEnd(src, s)] == src[s..RunEnd(src, s)]
      && (sh.kind == TokenKind.Number || sh.kind == TokenKind.Real)
  {
    var sh := NumberShape(src, s);
    var e := RunEnd(src, s);
    assert e == RunEnd(src, s + 1);
    if src[s] == '0' && CharAt(src, s + 1) == 'x' {
      assert sh == NumShape(2, SkipWhile(src, s + 2, Hex), TokenKind.Number, 16, "0x");
      RadixShapeRun(src, s, Hex);
    } else if src[s] == '0' && CharAt(src, s + 1) == 'b' {
      assert sh == NumShape(2, SkipWhile(src, s + 2, Binary), TokenKind.Number, 2, "0b");
      RadixShapeRun(src, s, Binary);
    } else {
      assert sh == DecShape(src, s);
      DecShapeRun(src, s);
    }
    PrefixJoin(src, s, sh.off, e, sh.prefix);
  }

  lemma PrefixJoin(src: string, s: nat, off: nat, e: nat, prefix: string)
    requires s + off <= e <= |src| && prefix == src[s..s + off]
    ensures prefix + src[s + off..e] == src[s..e]
  {
  }

  lemma RadixShapeRun(src: string, s: nat, k: CharClass)
    requires s + 2 <= |src| && !IsDelimiter(src[s + 1])
    ensures RunEnd(src, SkipWhile(src, s + 2, k)) == RunEnd(src, s + 1)
  {
    assert RunEnd(src, s + 1) == RunEnd(src, s + 2);
    RunEndSkip(src, s + 2, k);
  }

  lemma DecShapeRun(src: string, s: nat)
    requires s < |src|
    ensures RunEnd(src, DecShape(src, s).digitsEnd) == RunEnd(src, s + 1)
  {
    var d := SkipWhile(src, s + 1, Digit);
    RunEndSkip(src, s + 1, Digit);
    if CharAt(src, d) == '.' && IsDigit(CharAt(src, d + 1)) {
      assert RunEnd(src, d) == RunEnd(src, d + 1);
      RunEndSkip(src, d + 1, Digit);
    }
  }

  /** A decimal numeral without a dot is a `Number` token exactly when its
      whole text parses in base 10; the value is the parsed one. */
  lemma DecimalValue(src: string, path: string, s: nat, l: nat)
    requires s < |src| && IsDigit(src[s])
    requires !(src[s] == '0' && (CharAt(src, s + 1) == 'x' || CharAt(src, s + 1) == 'b'))
    requires forall m | s <= m < RunEnd(src, s) :: src[m] != '.'
    ensures var x := NumberLexed(src, path, s, l);
      var v := StrToNum(src[s..RunEnd(src, s)], 10);
      && (x.result.Ok? <==> v.Some?)
      && (x.result.Ok? ==> x.result.value.kind == TokenKind.Number && x.result.value.literal == Object.Number(v.value))
  {
    NumberRun(src, path, s, l);
    var d := SkipWhile(src, s + 1, Digit);
    RunEndSkip(src, s + 1, Digit);
    assert RunEnd(src, s) == RunEnd(src, s + 1);
    assert CharAt(src, d) != '.';
  }

  /** A `0x` or `0b` numeral is a `Number` token exactly when the text after
      the prefix parses in base 16 or 2; the value is the parsed one. */
  lemma RadixValue(src: string, path: string, s: nat, l: nat)
    requires s + 1 < |src| && src[s] == '0' && (src[s + 1] == 'x' || src[s + 1] == 'b')
    ensures var x := NumberLexed(src, path, s, l);
      var v := StrToNum(src[s + 2..RunEnd(src, s)], if src[s + 1] == 'x' then 16 else 2);
      && (x.result.Ok? <==> v.Some?)
      && (x.result.Ok? ==> x.result.value.kind == TokenKind.Number && x.result.value.literal == Object.Number(v.value))
  {
    NumberRun(src, path, s, l);
  }

  /** A decimal numeral with a fraction is a `Real` token exactly when its
      text is a real literal; the payload is that text. */
  lemma RealValue(src: string, path: string, s: nat, l: nat)
    requires s < |src| && IsDigit(src[s])
    requires !(src[s] == '0' && (CharAt(src, s + 1) == 'x' || CharAt(src, s + 1) == 'b'))
    requires var d := SkipWhile(src, s + 1, Digit); CharAt(src, d) == '.' && IsDigit(CharAt(src, d + 1))
    ensures var x := NumberLexed(src, path, s, l);
      var text := src[s..RunEnd(src, s)];
      && (x.result.Ok? <==> IsRealText(text))
      && (x.result.Ok? ==> x.result.value.kind == TokenKind.Real && x.result.value.literal == Object.Real(text))
  {
    var sh := NumberShape(src, s);
    assert sh == DecShape(src, s);
    assert sh.kind == TokenKind.Real && sh.off == 0;
    ShapeRun(src, s);
  }

  // ---------------------------------------------------------------------
  // Strings

  /** Between the quotes, a string without backslashes ends at the first
      quote, and each newline in it counts one line. */
  lemma {:induction false} StrScanPlain(src: string, quote: char, i: nat, e: nat, l: nat)
    requires i <= e <= |src| && (e == |src| || src[e] == quote)
    requires forall m | i <= m < e :: src[m] != quote && src[m] != '\\'
    decreases e - i
    ensures StrScan(src, quote, i, l) == (e, l + Newlines(src[i..e]))
  {
    if i < e {
      StrScanPlain(src, quote, i + 1, e, if src[i] == '\n' then l + 1 else l);
      assert src[i..e][1..] == src[i + 1..e];
    } else {
      assert src[i..e] == [];
    }
  }

  /** A backslash in a string takes the next character with it: that
      character neither closes the string nor counts as a newline. */
  lemma StrScanEscape(src: string, quote: char, i: nat, l: nat)
    requires i + 1 < |src| && src[i] == '\\' && quote != '\\'
    ensures StrScan(src, quote, i, l) == StrScan(src, quote, i + 2, l)
  {
  }

  /** A string without backslashes is a `Str` token whose literal is the
      text between the quotes and whose lexeme keeps the quotes. */
  lemma StrPlain(src: string, path: string, s: nat, e: nat, l: nat)
    requires s < e < |src| && src[s] == '"' && src[e] == '"'
    requires forall m | s < m < e :: src[m] != '"' && src[m] != '\\'
    ensures var l' := l + Newlines(src[s + 1..e]);
      StrLexed(src, path, s, l) == Lexed(Ok(Token(TokenKind.Str, Object.Str(src[s + 1..e]), src[s..e + 1], l', s, path)), e + 1, l')
  {
    StrScanPlain(src, '"', s + 1, e, l);
    var inner := src[s + 1..e];
    var w := src[s..e + 1];
    assert '\\' !in w by {
      forall m | 0 <= m < |w| ensures w[m] != '\\' {
        assert w[m] == src[s + m];
      }
    }
    assert '\\' !in inner by {
      forall m | 0 <= m < |inner| ensures inner[m] != '\\' {
        assert inner[m] == src[s + 1 + m];
      }
    }
    UnescapedNoBackslash(inner);
    UnescapedNoBackslash(w);
  }

  /** A quote with no closing quote (and no backslash) after it is an
      `UnterminatedString` error at the opening quote, and the run ends. */
  lemma StrUnterminated(src: string, path: string, s: nat, l: nat)
    requires s < |src| && src[s] == '"'
    requires forall m | s < m < |src| :: src[m] != '"' && src[m] != '\\'
    ensures var l' := l + Newlines(src[s + 1..]);
      StrLexed(src, path, s, l) == Lexed(Err(ExecError(UnterminatedString, Token(Invalid, Nil, "", l', s, path))), |src|, l')
  {
    StrScanPlain(src, '"', s + 1, |src|, l);
    assert src[s + 1..|src|] == src[s + 1..];
  }

  // ---------------------------------------------------------------------
  // Invalid characters

  /** The characters `scan_token` knows what to do with. */
  predicate Recognised(c: char)
  {
    c == ' ' || c == '\r' || c == '\n' || c == '#' || c == '\'' || c == '"'
    || c == '(' || c == ')' || c == '\0' || IsDigit(c) || IsAlpha(c)
  }

  /** `scan_token` fails with `InvalidToken` exactly on an unrecognised
      character, consuming just that character. */
  lemma InvalidIff(src: string, path: string, s: nat, l: nat)
    ensures var st := TokenStep(src, path, s, l);
      (st.result.Err? && st.result.error.errorType == InvalidToken) <==> s < |src| && !Recognised(src[s])
    ensures s < |src| && !Recognised(src[s]) ==>
      TokenStep(src, path, s, l) == Step(Err(ExecError(InvalidToken, Token(Invalid, Nil, "", l, s, path))), s + 1, l)
  {
  }
}
