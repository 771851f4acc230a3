/** The parser object of `lib/src/parser.rs`: a token vector and a cursor
    that `advance`, `is_match`, `consume` and `sync` move forward while the
    recursive-descent routines build statements. Every routine is proved
    to return what the matching function of `ParseSpec` returns and to
    leave the cursor where that function says. */
module Parsing {
  import opened Tokens
  import opened Errors
  import opened Ast
  import opened ParseSpec

  class Parser {
    const tokens: seq<Token>
    var current: nat

    /** The token vector ends with an end-of-file token and the cursor is
        on one of its tokens. */
    predicate Valid()
      reads this
    {
      WellFormed(tokens) && current < |tokens|
    }

    /** A parser at the first of `tokens`. */
    constructor(tokens: seq<Token>)
      requires WellFormed(tokens)
      ensures Valid() && this.tokens == tokens && current == 0
    {
      this.tokens := tokens;
      current := 0;
    }

    /** `peek`: the token under the cursor. */
    function Peek(): (t: Token)
      requires Valid()
      reads this
      ensures t == tokens[current]
    {
      tokens[current]
    }

    /** `previous`: the token before the cursor. */
    function Previous(): (t: Token)
      requires Valid() && current >= 1
      reads this
      ensures t == tokens[current - 1]
    {
      tokens[current - 1]
    }

    predicate IsAtEnd()
      requires Valid()
      reads this
    {
      Peek().kind == EndOfFile
    }

    /** `check`: the cursor is not at the end and its token has kind `k`. */
    predicate Check(k: TokenKind)
      requires Valid()
      reads this
    {
      !IsAtEnd() && Peek().kind == k
    }

    /** `advance`: moves the cursor one token unless it is at the end, and
        returns the token before the cursor, which needs one to exist. */
    method Advance() returns (t: Token)
      requires Valid() && (current >= 1 || !IsAtEnd())
      modifies this
      ensures Valid() && current >= 1
      ensures current == AdvancePos(tokens, old(current)) && t == tokens[current - 1]
    {
      if !IsAtEnd() {
        current := current + 1;
      }
      return Previous();
    }

    /** `is_match`: takes the token under the cursor iff it has one of `types`. */
    method IsMatch(types: seq<TokenKind>) returns (b: bool)
      requires Valid()
      modifies this
      ensures Valid()
      ensures b <==> Matches(tokens, old(current), types)
      ensures current == if b then old(current) + 1 else old(current)
    {
      for i := 0 to |types|
        invariant current == old(current)
        invariant forall j | 0 <= j < i :: !ParseSpec.Check(tokens, current, types[j])
      {
        if Check(types[i]) {
          var _ := Advance();
          return true;
        }
      }
      return false;
    }

    /** `consume`: takes a token of kind `k`, or fails with `error` on the
        previous token. */
    method Consume(k: TokenKind, error: ErrorType) returns (r: Result<Token, ExecError>)
      requires Valid() && current >= 1
      modifies this
      ensures Valid()
      ensures var c := ParseSpec.Consume(tokens, old(current), k, error);
        r == c.result && current == c.pos
    {
      if Check(k) {
        var t := Advance();
        return Ok(t);
      }
      return Err(ExecError(error, Previous()));
    }

    /** `sync`: skips one token after an error. */
    method Sync()
      requires Valid() && (current >= 1 || !IsAtEnd())
      modifies this
      ensures Valid() && current == AdvancePos(tokens, old(current))
    {
      var _ := Advance();
    }

    /** `expr`: a word or a literal; anything else is `UnexpectedToken`. */
    method Expression() returns (r: Result<Expr, ExecError>)
      requires Valid()
      modifies this
      ensures Valid()
      ensures var e := ExprAt(tokens, old(current));
        r == e.result && current == e.pos
    {
      MatchesOne(tokens, current, Word);
      var m := IsMatch([Word]);
      if m {
        return Ok(WordExpr(Previous()));
      }
      MatchesThree(tokens, current, TokenKind.Str, TokenKind.Number, TokenKind.Real);
      m := IsMatch([TokenKind.Str, TokenKind.Number, TokenKind.Real]);
      if m {
        return Ok(LiteralExpr(Previous()));
      }
      return Err(ExecError(UnexpectedToken, Peek()));
    }

    /** `stmt`: a definition or an expression statement. */
    method Statement() returns (r: Result<Stmt, ExecError>)
      requires Valid()
      modifies this
      decreases |tokens| - current, 2
      ensures Valid()
      ensures var s := StmtAt(tokens, old(current));
        r == s.result && current == s.pos
    {
      MatchesOne(tokens, current, StartDefine);
      var m := IsMatch([StartDefine]);
      if m {
        r := DefineStatement(Regular);
        return;
      }
      MatchesOne(tokens, current, StartDefine);
      m := IsMatch([StartDefine]);
      if m {
        assert false;
      }
      MatchesOne(tokens, current, StartConstDefine);
      m := IsMatch([StartConstDefine]);
      if m {
        r := DefineStatement(Constant);
        return;
      }
      var e := Expression();
      match e {
        case Ok(x) => return Ok(ExprStmt(x));
        case Err(err) => return Err(err);
      }
    }

    /** `define_stmt`, `define_inline_stmt` and `define_const_stmt`, which
        differ only in the `mode` they record: a word, then a block up to
        `EndDefine`. */
    method DefineStatement(mode: DefineMode) returns (r: Result<Stmt, ExecError>)
      requires Valid() && current >= 1
      modifies this
      decreases |tokens| - current, 4
      ensures Valid()
      ensures var d := DefineAt(tokens, old(current), mode);
        r == d.result && current == d.pos
    {
      var name := Advance();
      if name.kind != Word {
        return Err(ExecError(ExpectedName, name));
      }
      var block := BlockStatement(EndDefine);
      match block {
        case Ok(b) => return Ok(DefineStmt(name, b, mode));
        case Err(err) => return Err(err);
      }
    }

    /** `block_stmt`: statements until `delim`, which is then consumed. */
    method BlockStatement(delim: TokenKind) returns (r: Result<Stmt, ExecError>)
      requires Valid() && current >= 1
      modifies this
      decreases |tokens| - current, 3
      ensures Valid()
      ensures var b := BlockAt(tokens, old(current), delim, []);
        r == b.result && current == b.pos
    {
      var block: seq<Stmt> := [];
      while !Check(delim) && !IsAtEnd()
        invariant Valid() && old(current) <= current && current >= 1
        invariant BlockAt(tokens, current, delim, block) == BlockAt(tokens, old(current), delim, [])
        decreases |tokens| - current
      {
        var s := Statement();
        match s {
          case Ok(stmt) => block := block + [stmt];
          case Err(err) => return Err(err);
        }
      }
      var c := Consume(delim, UnterminatedBlock);
      match c {
        case Ok(_) => return Ok(BlockStmt(block));
        case Err(err) => return Err(err);
      }
    }

    /** `parse`: statements until the end, recording each error and
        skipping one token after it; any error makes the whole run fail. */
    method Parse() returns (r: Result<seq<Stmt>, seq<ExecError>>)
      requires Valid()
      modifies this
      ensures Valid()
      ensures r == ParseFrom(tokens, old(current), [], [])
    {
      var stmts: seq<Stmt> := [];
      var errors: seq<ExecError> := [];
      while !IsAtEnd()
        invariant Valid()
        invariant ParseFrom(tokens, current, stmts, errors) == ParseFrom(tokens, old(current), [], [])
        decreases |tokens| - current
      {
        var s := Statement();
        match s {
          case Ok(stmt) => stmts := stmts + [stmt];
          case Err(err) =>
            errors := errors + [err];
            Sync();
        }
      }
      if |errors| > 0 {
        return Err(errors);
      }
      return Ok(stmts);
    }
  }
}
