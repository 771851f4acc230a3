/** The parser's unit tests in `lib/src/parser.rs`, on token vectors of the
    kinds those tests' inputs stand for. Only the kinds matter to the
    parser, so each lemma holds whatever the tokens' other fields are. */
module ParseExamples {
  import opened Tokens
  import opened Errors
  import opened Ast
  import opened ParseSpec

  /** `: word 1 + ;` is one regular definition of `word` whose block holds
      the literal `1` and the word `+`. */
  lemma DefinitionExample(colon: Token, name: Token, one: Token, plus: Token, semi: Token, eof: Token)
    requires colon.kind == StartDefine && name.kind == Word && one.kind == TokenKind.Number
    requires plus.kind == Word && semi.kind == EndDefine && eof.kind == EndOfFile
    ensures Parse([colon, name, one, plus, semi, eof]) ==
      Ok([DefineStmt(name, BlockStmt([ExprStmt(LiteralExpr(one)), ExprStmt(WordExpr(plus))]), Regular)])
  {
    var toks := [colon, name, one, plus, semi, eof];
    assert StmtAt(toks, 2) == Parsed(Ok(ExprStmt(LiteralExpr(one))), 3);
    assert StmtAt(toks, 3) == Parsed(Ok(ExprStmt(WordExpr(plus))), 4);
    assert BlockAt(toks, 4, EndDefine, [ExprStmt(LiteralExpr(one)), ExprStmt(WordExpr(plus))]).result
      == Ok(BlockStmt([ExprStmt(LiteralExpr(one)), ExprStmt(WordExpr(plus))]));
    assert [ExprStmt(LiteralExpr(one))] + [ExprStmt(WordExpr(plus))] == [ExprStmt(LiteralExpr(one)), ExprStmt(WordExpr(plus))];
    assert [] + [ExprStmt(LiteralExpr(one))] == [ExprStmt(LiteralExpr(one))];
    assert BlockAt(toks, 2, EndDefine, []) == BlockAt(toks, 3, EndDefine, [ExprStmt(LiteralExpr(one))]);
    assert StmtAt(toks, 0) == Parsed(Ok(DefineStmt(name, BlockStmt([ExprStmt(LiteralExpr(one)), ExprStmt(WordExpr(plus))]), Regular)), 5);
    assert [] + [DefineStmt(name, BlockStmt([ExprStmt(LiteralExpr(one)), ExprStmt(WordExpr(plus))]), Regular)]
      == [DefineStmt(name, BlockStmt([ExprStmt(LiteralExpr(one)), ExprStmt(WordExpr(plus))]), Regular)];
    assert ParseFrom(toks, 5, [DefineStmt(name, BlockStmt([ExprStmt(LiteralExpr(one)), ExprStmt(WordExpr(plus))]), Regular)], [])
      == Ok([DefineStmt(name, BlockStmt([ExprStmt(LiteralExpr(one)), ExprStmt(WordExpr(plus))]), Regular)]);
  }

  /** `: 1 +;` fails once, with `ExpectedName` on the `1`; the `+;` after it
      is skipped by `sync`. */
  lemma MissingNameExample(colon: Token, one: Token, plus: Token, eof: Token)
    requires colon.kind == StartDefine && one.kind == TokenKind.Number && plus.kind == Word && eof.kind == EndOfFile
    ensures Parse([colon, one, plus, eof]) == Err([ExecError(ExpectedName, one)])
  {
    var toks := [colon, one, plus, eof];
    assert StmtAt(toks, 0) == Parsed(Err(ExecError(ExpectedName, one)), 2);
    assert [] + [ExecError(ExpectedName, one)] == [ExecError(ExpectedName, one)];
    assert ParseFrom(toks, 0, [], []) == ParseFrom(toks, 3, [], [ExecError(ExpectedName, one)]);
    assert ParseFrom(toks, 3, [], [ExecError(ExpectedName, one)]) == Err([ExecError(ExpectedName, one)]);
  }

  /** `: word 1 +` fails once, with `UnterminatedBlock` on the `+`, the last
      token before the end. */
  lemma UnterminatedExample(colon: Token, name: Token, one: Token, plus: Token, eof: Token)
    requires colon.kind == StartDefine && name.kind == Word && one.kind == TokenKind.Number
    requires plus.kind == Word && eof.kind == EndOfFile
    ensures Parse([colon, name, one, plus, eof]) == Err([ExecError(UnterminatedBlock, plus)])
  {
    var toks := [colon, name, one, plus, eof];
    assert StmtAt(toks, 2) == Parsed(Ok(ExprStmt(LiteralExpr(one))), 3);
    assert StmtAt(toks, 3) == Parsed(Ok(ExprStmt(WordExpr(plus))), 4);
    assert BlockAt(toks, 4, EndDefine, [ExprStmt(LiteralExpr(one)), ExprStmt(WordExpr(plus))])
      == Parsed(Err(ExecError(UnterminatedBlock, plus)), 4);
    assert [] + [ExprStmt(LiteralExpr(one))] == [ExprStmt(LiteralExpr(one))];
    assert BlockAt(toks, 2, EndDefine, []) == BlockAt(toks, 3, EndDefine, [ExprStmt(LiteralExpr(one))]);
    assert [ExprStmt(LiteralExpr(one))] + [ExprStmt(WordExpr(plus))] == [ExprStmt(LiteralExpr(one)), ExprStmt(WordExpr(plus))];
    assert BlockAt(toks, 3, EndDefine, [ExprStmt(LiteralExpr(one))]) == Parsed(Err(ExecError(UnterminatedBlock, plus)), 4);
    assert DefineAt(toks, 1, Regular) == Parsed(Err(ExecError(UnterminatedBlock, plus)), 4);
    assert StmtAt(toks, 0) == Parsed(Err(ExecError(UnterminatedBlock, plus)), 4);
    assert [] + [ExecError(UnterminatedBlock, plus)] == [ExecError(UnterminatedBlock, plus)];
    assert ParseFrom(toks, 0, [], []) == ParseFrom(toks, 4, [], [ExecError(UnterminatedBlock, plus)]);
    assert ParseFrom(toks, 4, [], [ExecError(UnterminatedBlock, plus)]) == Err([ExecError(UnterminatedBlock, plus)]);
  }
}
