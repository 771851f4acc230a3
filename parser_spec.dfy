/** The parser of `lib/src/parser.rs` as functions of the token vector and
    the cursor position. Each function returns what the matching method
    returns together with the cursor it leaves behind. */
module ParseSpec {
  import opened Tokens
  import opened Errors
  import opened Ast

  /** The parser's token vector ends with an end-of-file token. */
  predicate WellFormed(toks: seq<Token>)
  {
    |toks| > 0 && toks[|toks| - 1].kind == EndOfFile
  }

  datatype Parsed<T> = Parsed(result: Result<T, ExecError>, pos: nat)

  /** `is_at_end`: the token under the cursor is an end-of-file token. */
  predicate AtEnd(toks: seq<Token>, pos: nat)
    requires pos < |toks|
  {
    toks[pos].kind == EndOfFile
  }

  /** `check`: the token under the cursor has kind `k` and is not the end. */
  predicate Check(toks: seq<Token>, pos: nat, k: TokenKind)
    requires pos < |toks|
  {
    !AtEnd(toks, pos) && toks[pos].kind == k
  }

  /** `advance`: the cursor moves one token unless it is at the end. */
  function AdvancePos(toks: seq<Token>, pos: nat): (p: nat)
    requires WellFormed(toks) && pos < |toks|
    ensures p < |toks| && (p == pos + 1 || (p == pos && AtEnd(toks, pos)))
  {
    if AtEnd(toks, pos) then pos else pos + 1
  }

  /** `is_match`: one of `kinds` is under the cursor. */
  predicate Matches(toks: seq<Token>, pos: nat, kinds: seq<TokenKind>)
    requires pos < |toks|
  {
    exists i :: 0 <= i < |kinds| && Check(toks, pos, kinds[i])
  }

  /** `is_match` on one kind is `check` on it. */
  lemma MatchesOne(toks: seq<Token>, pos: nat, k: TokenKind)
    requires pos < |toks|
    ensures Matches(toks, pos, [k]) <==> Check(toks, pos, k)
  {
    if Check(toks, pos, k) {
      assert [k][0] == k;
    }
  }

  /** `is_match` on three kinds is `check` on any of them. */
  lemma MatchesThree(toks: seq<Token>, pos: nat, a: TokenKind, b: TokenKind, c: TokenKind)
    requires pos < |toks|
    ensures Matches(toks, pos, [a, b, c]) <==> Check(toks, pos, a) || Check(toks, pos, b) || Check(toks, pos, c)
  {
    var ks := [a, b, c];
    if Check(toks, pos, a) || Check(toks, pos, b) || Check(toks, pos, c) {
      assert Check(toks, pos, ks[0]) || Check(toks, pos, ks[1]) || Check(toks, pos, ks[2]);
    }
  }

  /** `expr`: a word, a literal, or `UnexpectedToken` on the token under
      the cursor, which is left where it was. */
  function ExprAt(toks: seq<Token>, pos: nat): (r: Parsed<Expr>)
    requires WellFormed(toks) && pos < |toks|
    ensures r.result.Ok? ==> r.pos == pos + 1 && r.pos < |toks|
    ensures r.result.Err? ==> r.pos == pos
  {
    if Check(toks, pos, Word) then Parsed(Ok(WordExpr(toks[pos])), pos + 1)
    else if Check(toks, pos, TokenKind.Str) || Check(toks, pos, TokenKind.Number) || Check(toks, pos, TokenKind.Real) then
      Parsed(Ok(LiteralExpr(toks[pos])), pos + 1)
    else Parsed(Err(ExecError(UnexpectedToken, toks[pos])), pos)
  }

  /** `stmt`: a definition after `StartDefine` or `StartConstDefine`, else
      an expression statement. The second `StartDefine` test in the source
      can never succeed, so `define_inline_stmt` is never reached. */
  function StmtAt(toks: seq<Token>, pos: nat): (r: Parsed<Stmt>)
    requires WellFormed(toks) && pos < |toks|
    decreases |toks| - pos, 2
    ensures pos <= r.pos < |toks|
    ensures r.result.Ok? ==> pos < r.pos
  {
    if Check(toks, pos, StartDefine) then DefineAt(toks, pos + 1, Regular)
    else if Check(toks, pos, StartConstDefine) then DefineAt(toks, pos + 1, Constant)
    else
      var e := ExprAt(toks, pos);
      match e.result
      case Ok(x) => Parsed(Ok(ExprStmt(x)), e.pos)
      case Err(err) => Parsed(Err(err), e.pos)
  }

  /** `define_stmt`, `define_inline_stmt` and `define_const_stmt`, which
      differ only in `mode`: `pos` is just past the keyword. The name is
      the token `advance` returns, which at the end is the keyword itself. */
  function DefineAt(toks: seq<Token>, pos: nat, mode: DefineMode): (r: Parsed<Stmt>)
    requires WellFormed(toks) && 1 <= pos < |toks|
    decreases |toks| - pos, 4
    ensures pos <= r.pos < |toks|
  {
    var p := AdvancePos(toks, pos);
    var name := toks[p - 1];
    if name.kind != Word then Parsed(Err(ExecError(ExpectedName, name)), p)
    else
      var b := BlockAt(toks, p, EndDefine, []);
      match b.result
      case Ok(block) => Parsed(Ok(DefineStmt(name, block, mode)), b.pos)
      case Err(err) => Parsed(Err(err), b.pos)
  }

  /** `block_stmt(delim)` with the statements `acc` already collected:
      statements up to `delim`, which is then consumed. Reaching the end
      first is `UnterminatedBlock` on the last token consumed. */
  function BlockAt(toks: seq<Token>, pos: nat, delim: TokenKind, acc: seq<Stmt>): (r: Parsed<Stmt>)
    requires WellFormed(toks) && 1 <= pos < |toks|
    decreases |toks| - pos, 3
    ensures pos <= r.pos < |toks|
  {
    if !Check(toks, pos, delim) && !AtEnd(toks, pos) then
      var s := StmtAt(toks, pos);
      match s.result
      case Ok(stmt) => BlockAt(toks, s.pos, delim, acc + [stmt])
      case Err(err) => Parsed(Err(err), s.pos)
    else
      var c := Consume(toks, pos, delim, UnterminatedBlock);
      match c.result
      case Ok(_) => Parsed(Ok(BlockStmt(acc)), c.pos)
      case Err(err) => Parsed(Err(err), c.pos)
  }

  /** `consume`: the expected token is taken, or the error names the
      previous token. */
  function Consume(toks: seq<Token>, pos: nat, k: TokenKind, error: ErrorType): (r: Parsed<Token>)
    requires WellFormed(toks) && 1 <= pos < |toks|
    ensures r.result.Ok? <==> Check(toks, pos, k)
    ensures r.result.Ok? ==> r.pos == pos + 1 && r.result.value == toks[pos] && r.pos < |toks|
    ensures r.result.Err? ==> r.pos == pos && r.result.error == ExecError(error, toks[pos - 1])
  {
    if Check(toks, pos, k) then Parsed(Ok(toks[pos]), pos + 1)
    else Parsed(Err(ExecError(error, toks[pos - 1])), pos)
  }

  /** `parse` from `pos` with the statements and errors collected so far:
      one statement per round; after an error `sync` skips one token. */
  function ParseFrom(toks: seq<Token>, pos: nat, stmts: seq<Stmt>, errors: seq<ExecError>): Result<seq<Stmt>, seq<ExecError>>
    requires WellFormed(toks) && pos < |toks|
    decreases |toks| - pos
  {
    if AtEnd(toks, pos) then (if |errors| > 0 then Err(errors) else Ok(stmts))
    else
      var s := StmtAt(toks, pos);
      match s.result
      case Ok(stmt) => ParseFrom(toks, s.pos, stmts + [stmt], errors)
      case Err(err) => ParseFrom(toks, AdvancePos(toks, s.pos), stmts, errors + [err])
  }

  /** What `Parser { current: 0, tokens }.parse()` returns. */
  function Parse(toks: seq<Token>): Result<seq<Stmt>, seq<ExecError>>
    requires WellFormed(toks)
  {
    ParseFrom(toks, 0, [], [])
  }
}
