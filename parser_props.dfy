/** Properties of the parser functions of `ParseSpec`. */
module ParseProps {
  import opened Objects
  import opened Tokens
  import opened Errors
  import opened Ast
  import opened ParseSpec

  // ---------------------------------------------------------------------
  // The rounds of `parse`

  /** The result of each `stmt` call `parse` makes from `pos` on; after a
      failing one the next round starts one `sync` later. */
  function Rounds(toks: seq<Token>, pos: nat): seq<Result<Stmt, ExecError>>
    requires WellFormed(toks) && pos < |toks|
    decreases |toks| - pos
  {
    if AtEnd(toks, pos) then []
    else
      var s := StmtAt(toks, pos);
      var next := if s.result.Ok? then s.pos else AdvancePos(toks, s.pos);
      [s.result] + Rounds(toks, next)
  }

  /** The statements among `rs`, in order. */
  function StmtsOf(rs: seq<Result<Stmt, ExecError>>): seq<Stmt>
  {
    if |rs| == 0 then [] else (if rs[0].Ok? then [rs[0].value] else []) + StmtsOf(rs[1..])
  }

  /** The errors among `rs`, in order. */
  function ErrorsOf(rs: seq<Result<Stmt, ExecError>>): seq<ExecError>
  {
    if |rs| == 0 then [] else (if rs[0].Err? then [rs[0].error] else []) + ErrorsOf(rs[1..])
  }

  /** Each round gives one statement or one error, and an error is among
      them exactly when some round failed. */
  lemma {:induction false} RoundsSplit(rs: seq<Result<Stmt, ExecError>>)
    ensures |StmtsOf(rs)| + |ErrorsOf(rs)| == |rs|
    ensures |ErrorsOf(rs)| > 0 <==> exists i | 0 <= i < |rs| :: rs[i].Err?
    ensures |ErrorsOf(rs)| == 0 ==> StmtsOf(rs) == seq(|rs|, i requires 0 <= i < |rs| => rs[i].value)
  {
    if |rs| > 0 {
      RoundsSplit(rs[1..]);
      if rs[0].Err? {
        assert rs[0].Err?;
      } else if exists i | 0 <= i < |rs| :: rs[i].Err? {
        var i :| 0 <= i < |rs| && rs[i].Err?;
        assert rs[1..][i - 1].Err?;
      }
      if |ErrorsOf(rs)| == 0 {
        assert StmtsOf(rs) == [rs[0].value] + StmtsOf(rs[1..]);
      }
    }
  }

  lemma OfCons(r: Result<Stmt, ExecError>, rest: seq<Result<Stmt, ExecError>>)
    ensures StmtsOf([r] + rest) == (if r.Ok? then [r.value] else []) + StmtsOf(rest)
    ensures ErrorsOf([r] + rest) == (if r.Err? then [r.error] else []) + ErrorsOf(rest)
  {
    assert ([r] + rest)[1..] == rest;
  }

  /** What `parse` returns once it has collected `stmts` and `errors`. */
  function Collected(stmts: seq<Stmt>, errors: seq<ExecError>): Result<seq<Stmt>, seq<ExecError>>
  {
    if |errors| > 0 then Err(errors) else Ok(stmts)
  }

  /** Collecting one round's result first and the rest after it is
      collecting them all. */
  lemma CollectRound(stmts: seq<Stmt>, errors: seq<ExecError>, r: Result<Stmt, ExecError>, rest: seq<Result<Stmt, ExecError>>)
    ensures var stmts' := if r.Ok? then stmts + [r.value] else stmts;
      var errors' := if r.Err? then errors + [r.error] else errors;
      Collected(stmts' + StmtsOf(rest), errors' + ErrorsOf(rest)) ==
        Collected(stmts + StmtsOf([r] + rest), errors + ErrorsOf([r] + rest))
  {
    OfCons(r, rest);
    if r.Ok? {
      assert stmts + [r.value] + StmtsOf(rest) == stmts + ([r.value] + StmtsOf(rest));
      assert errors + ErrorsOf(rest) == errors + ([] + ErrorsOf(rest));
    } else {
      assert errors + [r.error] + ErrorsOf(rest) == errors + ([r.error] + ErrorsOf(rest));
      assert stmts + StmtsOf(rest) == stmts + ([] + StmtsOf(rest));
    }
  }

  /** `parse` from `pos` appends the statements and the errors of the
      remaining rounds to what it already has. */
  lemma {:induction false} ParseFromRounds(toks: seq<Token>, pos: nat, stmts: seq<Stmt>, errors: seq<ExecError>)
    requires WellFormed(toks) && pos < |toks|
    decreases |toks| - pos
    ensures ParseFrom(toks, pos, stmts, errors) ==
      Collected(stmts + StmtsOf(Rounds(toks, pos)), errors + ErrorsOf(Rounds(toks, pos)))
  {
    if AtEnd(toks, pos) {
      assert errors + [] == errors && stmts + [] == stmts;
    } else {
      var s := StmtAt(toks, pos);
      var next := if s.result.Ok? then s.pos else AdvancePos(toks, s.pos);
      var stmts' := if s.result.Ok? then stmts + [s.result.value] else stmts;
      var errors' := if s.result.Err? then errors + [s.result.error] else errors;
      assert ParseFrom(toks, pos, stmts, errors) == ParseFrom(toks, next, stmts', errors');
      assert Rounds(toks, pos) == [s.result] + Rounds(toks, next);
      ParseFromRounds(toks, next, stmts', errors');
      CollectRound(stmts, errors, s.result, Rounds(toks, next));
    }
  }

  /** `parse` fails exactly when one of its rounds fails, and then it
      reports every failing round's error in order; otherwise it returns
      every round's statement in order. */
  lemma ParseCollects(toks: seq<Token>)
    requires WellFormed(toks)
    ensures var rs := Rounds(toks, 0);
      && (Parse(toks).Err? <==> exists i | 0 <= i < |rs| :: rs[i].Err?)
      && (Parse(toks).Err? ==> Parse(toks).error == ErrorsOf(rs) && |ErrorsOf(rs)| + |StmtsOf(rs)| == |rs|)
      && (Parse(toks).Ok? ==> Parse(toks).value == seq(|rs|, i requires 0 <= i < |rs| => rs[i].value))
  {
    var rs := Rounds(toks, 0);
    ParseFromRounds(toks, 0, [], []);
    RoundsSplit(rs);
    assert [] + ErrorsOf(rs) == ErrorsOf(rs) && [] + StmtsOf(rs) == StmtsOf(rs);
  }

  // ---------------------------------------------------------------------
  // Statements

  /** `expr` turns a word into a word expression and a string, number or
      real into a literal, taking that one token; on anything else it
      reports `UnexpectedToken` on the token under the cursor and leaves
      the cursor there. */
  lemma ExprKinds(toks: seq<Token>, pos: nat)
    requires WellFormed(toks) && pos < |toks|
    ensures var e := ExprAt(toks, pos);
      var k := toks[pos].kind;
      && (e.result.Ok? <==> k in {TokenKind.Word, TokenKind.Str, TokenKind.Number, TokenKind.Real})
      && (e.result.Ok? ==> e.pos == pos + 1 && (e.result.value == if k == TokenKind.Word then WordExpr(toks[pos]) else LiteralExpr(toks[pos])))
      && (e.result.Err? ==> e.pos == pos && e.result.error == ExecError(UnexpectedToken, toks[pos]))
  {
  }

  /** `StartDefine` starts a `Regular` definition and `StartConstDefine` a
      `Constant` one, each parsed from the token after the keyword. */
  lemma DefineKeyword(toks: seq<Token>, pos: nat)
    requires WellFormed(toks) && pos < |toks|
    ensures toks[pos].kind == StartDefine ==> StmtAt(toks, pos) == DefineAt(toks, pos + 1, Regular)
    ensures toks[pos].kind == StartConstDefine ==> StmtAt(toks, pos) == DefineAt(toks, pos + 1, Constant)
    ensures toks[pos].kind != StartDefine && toks[pos].kind != StartConstDefine ==>
      StmtAt(toks, pos).result.Ok? ==> StmtAt(toks, pos).result.value.ExprStmt?
  {
  }

  /** A definition needs a word after its keyword: otherwise the error is
      `ExpectedName` on the token taken instead (the keyword itself when
      the input ends there). A definition that parses is named by that
      word, records its mode and ends just past `EndDefine`. */
  lemma DefineName(toks: seq<Token>, pos: nat, mode: DefineMode)
    requires WellFormed(toks) && 1 <= pos < |toks|
    ensures var d := DefineAt(toks, pos, mode);
      var name := if AtEnd(toks, pos) then toks[pos - 1] else toks[pos];
      && (name.kind != TokenKind.Word ==> d == Parsed(Err(ExecError(ExpectedName, name)), AdvancePos(toks, pos)))
      && (d.result.Ok? ==>
            && name.kind == TokenKind.Word && d.result.value.DefineStmt? && d.result.value.name == toks[pos]
            && d.result.value.mode == mode && d.result.value.block.BlockStmt? && toks[d.pos - 1].kind == EndDefine)
  {
    var d := DefineAt(toks, pos, mode);
    if !AtEnd(toks, pos) && toks[pos].kind == TokenKind.Word {
      BlockEnds(toks, pos + 1, EndDefine, []);
    }
  }

  /** A block that parses ends just past its delimiter, past at least one
      token more than where it started. */
  lemma {:induction false} BlockEnds(toks: seq<Token>, pos: nat, delim: TokenKind, acc: seq<Stmt>)
    requires WellFormed(toks) && 1 <= pos < |toks|
    decreases |toks| - pos
    ensures var b := BlockAt(toks, pos, delim, acc);
      b.result.Ok? ==> pos < b.pos && toks[b.pos - 1].kind == delim && b.result.value.BlockStmt?
  {
    if !Check(toks, pos, delim) && !AtEnd(toks, pos) {
      var s := StmtAt(toks, pos);
      if s.result.Ok? {
        BlockEnds(toks, s.pos, delim, acc + [s.result.value]);
      }
    }
  }

  /** Whenever a statement fails with `UnterminatedBlock` (its own block or
      a nested one), the cursor is at the end of the input and the error
      names the last token consumed. */
  lemma {:induction false} StmtUnterminated(toks: seq<Token>, pos: nat)
    requires WellFormed(toks) && pos < |toks|
    decreases |toks| - pos, 2
    ensures var s := StmtAt(toks, pos);
      s.result.Err? && s.result.error.errorType == UnterminatedBlock ==>
        s.pos >= 1 && AtEnd(toks, s.pos) && s.result.error.token == toks[s.pos - 1]
  {
    if Check(toks, pos, StartDefine) {
      DefineUnterminated(toks, pos + 1, Regular);
    } else if Check(toks, pos, StartConstDefine) {
      DefineUnterminated(toks, pos + 1, Constant);
    }
  }

  lemma {:induction false} DefineUnterminated(toks: seq<Token>, pos: nat, mode: DefineMode)
    requires WellFormed(toks) && 1 <= pos < |toks|
    decreases |toks| - pos, 4
    ensures var d := DefineAt(toks, pos, mode);
      d.result.Err? && d.result.error.errorType == UnterminatedBlock ==>
        AtEnd(toks, d.pos) && d.result.error.token == toks[d.pos - 1]
  {
    var p := AdvancePos(toks, pos);
    if toks[p - 1].kind == TokenKind.Word {
      BlockUnterminated(toks, p, EndDefine, []);
    }
  }

  lemma {:induction false} BlockUnterminated(toks: seq<Token>, pos: nat, delim: TokenKind, acc: seq<Stmt>)
    requires WellFormed(toks) && 1 <= pos < |toks|
    decreases |toks| - pos, 3
    ensures var b := BlockAt(toks, pos, delim, acc);
      b.result.Err? && b.result.error.errorType == UnterminatedBlock ==>
        AtEnd(toks, b.pos) && b.result.error.token == toks[b.pos - 1]
  {
    if !Check(toks, pos, delim) && !AtEnd(toks, pos) {
      var s := StmtAt(toks, pos);
      StmtUnterminated(toks, pos);
      if s.result.Ok? {
        BlockUnterminated(toks, s.pos, delim, acc + [s.result.value]);
      }
    }
  }

  // ---------------------------------------------------------------------
  // No inline definitions

  /** No definition in `s`, however deeply nested, is `Inline`. */
  predicate NoInline(s: Stmt)
  {
    match s
    case ExprStmt(_) => true
    case BlockStmt(body) => forall i | 0 <= i < |body| :: NoInline(body[i])
    case DefineStmt(_, block, mode) => mode != Inline && NoInline(block)
  }

  /** `define_inline_stmt` is unreachable: no statement `stmt` returns has
      an `Inline` definition anywhere in it. */
  lemma {:induction false} StmtNoInline(toks: seq<Token>, pos: nat)
    requires WellFormed(toks) && pos < |toks|
    decreases |toks| - pos, 2
    ensures StmtAt(toks, pos).result.Ok? ==> NoInline(StmtAt(toks, pos).result.value)
  {
    if Check(toks, pos, StartDefine) {
      DefineNoInline(toks, pos + 1, Regular);
    } else if Check(toks, pos, StartConstDefine) {
      DefineNoInline(toks, pos + 1, Constant);
    }
  }

  lemma {:induction false} DefineNoInline(toks: seq<Token>, pos: nat, mode: DefineMode)
    requires WellFormed(toks) && 1 <= pos < |toks| && mode != Inline
    decreases |toks| - pos, 4
    ensures DefineAt(toks, pos, mode).result.Ok? ==> NoInline(DefineAt(toks, pos, mode).result.value)
  {
    var p := AdvancePos(toks, pos);
    if toks[p - 1].kind == TokenKind.Word {
      BlockNoInline(toks, p, EndDefine, []);
    }
  }

  lemma {:induction false} BlockNoInline(toks: seq<Token>, pos: nat, delim: TokenKind, acc: seq<Stmt>)
    requires WellFormed(toks) && 1 <= pos < |toks|
    requires forall i | 0 <= i < |acc| :: NoInline(acc[i])
    decreases |toks| - pos, 3
    ensures BlockAt(toks, pos, delim, acc).result.Ok? ==> NoInline(BlockAt(toks, pos, delim, acc).result.value)
  {
    if !Check(toks, pos, delim) && !AtEnd(toks, pos) {
      var s := StmtAt(toks, pos);
      StmtNoInline(toks, pos);
      if s.result.Ok? {
        var acc' := acc + [s.result.value];
        assert forall i | 0 <= i < |acc'| :: NoInline(acc'[i]) by {
          forall i | 0 <= i < |acc'|
            ensures NoInline(acc'[i])
          {
            if i < |acc| {
              assert acc'[i] == acc[i];
            }
          }
        }
        BlockNoInline(toks, s.pos, delim, acc');
      }
    }
  }

  /** No statement `parse` returns has an `Inline` definition. */
  lemma ParseNoInline(toks: seq<Token>)
    requires WellFormed(toks)
    ensures Parse(toks).Ok? ==> forall i | 0 <= i < |Parse(toks).value| :: NoInline(Parse(toks).value[i])
  {
    ParseCollects(toks);
    RoundsNoInline(toks, 0);
  }

  lemma {:induction false} RoundsNoInline(toks: seq<Token>, pos: nat)
    requires WellFormed(toks) && pos < |toks|
    decreases |toks| - pos
    ensures var rs := Rounds(toks, pos);
      forall i | 0 <= i < |rs| :: rs[i].Ok? ==> NoInline(rs[i].value)
  {
    if !AtEnd(toks, pos) {
      var s := StmtAt(toks, pos);
      var next := if s.result.Ok? then s.pos else AdvancePos(toks, s.pos);
      var rs := Rounds(toks, pos);
      assert rs == [s.result] + Rounds(toks, next);
      StmtNoInline(toks, pos);
      RoundsNoInline(toks, next);
      forall i | 0 <= i < |rs| && rs[i].Ok?
        ensures NoInline(rs[i].value)
      {
        if i > 0 {
          assert rs[i] == Rounds(toks, next)[i - 1];
        }
      }
    }
  }
}

