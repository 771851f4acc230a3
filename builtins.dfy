/** The builtins of `lib/src/builtins.rs`. The interpreted ones (`call`)
    pop their operands from the interpreter's stack and push their result;
    the compiled ones (`compile`) switch the compiler's stack width. Each
    `call` is a method on the interpreter proved to leave the result and
    the stack that `CallEffect` gives. */
module Builtins {
  import opened Objects
  import Tokens
  import opened Errors
  import opened Ast
  import opened Arith
  import opened Machine

  /** The interpreted builtins: `+ - * / % & | ~ ^ dup drop = !=`. */
  datatype Builtin =
    | Add | Sub | Mul | Div | Mod
    | And | Or | Not | Xor
    | Dup | DropTop
    | Equal | NotEqual

  /** The builtins that pop two `Number`s and push one. */
  predicate IsNumeric(b: Builtin)
  {
    b.Add? || b.Sub? || b.Mul? || b.Div? || b.Mod? || b.And? || b.Or? || b.Xor?
  }

  /** The builtins that pop two operands and push one. */
  predicate IsBinary(b: Builtin)
  {
    IsNumeric(b) || b.Equal? || b.NotEqual?
  }

  /** How many elements a successful call removes from the top of the stack
      before it pushes its result (`dup` only reads the top). */
  function Arity(b: Builtin): nat
  {
    if IsBinary(b) then 2 else if b.Dup? then 0 else 1
  }

  /** How many elements a successful call pushes. */
  function Pushes(b: Builtin): nat
  {
    if b.DropTop? then 0 else 1
  }

  /** `i64::MIN / -1` and `i64::MIN % -1` overflow, which panics in Rust;
      callers must not reach it. */
  predicate Overflows(b: Builtin, x: Object, y: Object)
  {
    (b.Div? || b.Mod?) && x == Object.Number(MinI64) && y == Object.Number(-1)
  }

  /** No overflowing division is on top of the stack. */
  predicate NoOverflow(b: Builtin, s: seq<Object>)
  {
    |s| >= 2 ==> !Overflows(b, s[|s| - 2], s[|s| - 1])
  }

  /** `n1 op n2` on two `i64`s: wrapping `+ - *`, truncating `/` and `%`,
      which fail on a zero divisor, and the bitwise operators. */
  function Arithmetic(b: Builtin, n1: I64, n2: I64): (r: Result<I64, ErrorType>)
    requires IsNumeric(b) && !Overflows(b, Object.Number(n1), Object.Number(n2))
    ensures r.Err? <==> (b.Div? || b.Mod?) && n2 == 0
    ensures r.Err? ==> r.error == DivisionByZero
  {
    match b
    case Add => Ok(Wrap(n1 + n2))
    case Sub => Ok(Wrap(n1 - n2))
    case Mul => Ok(Wrap(n1 * n2))
    case Div =>
      if n2 == 0 then Err(DivisionByZero)
      else QuotRange(n1, n2); Ok(Quot(n1, n2))
    case Mod =>
      if n2 == 0 then Err(DivisionByZero)
      else RemRange(n1, n2); Ok(Rem(n1, n2))
    case And => Ok(Arith.And(n1, n2))
    case Or => Ok(Arith.Or(n1, n2))
    case Xor => Ok(Arith.Xor(n1, n2))
  }

  lemma RemRange(x: I64, y: I64)
    requires y != 0
    ensures MinI64 <= Rem(x, y) <= MaxI64
  {
    QuotRem(x, y);
  }

  /** What a binary builtin pushes for the operands `x` (second from the
      top) and `y` (the top). */
  function Combine(b: Builtin, x: Object, y: Object, token: Tokens.Token): (r: Result<Object, ExecError>)
    requires IsBinary(b) && !Overflows(b, x, y)
    ensures r.Err? ==> r.error.token == token && r.error.errorType in {TypeError, DivisionByZero}
    ensures r.Ok? ==> r.value.Number?
  {
    if b.Equal? then Ok(Object.Number(if ObjEquals(y, x) then 1 else 0))
    else if b.NotEqual? then Ok(Object.Number(if !ObjEquals(y, x) then 1 else 0))
    else if x.Number? && y.Number? then
      match Arithmetic(b, x.n, y.n)
      case Ok(n) => Ok(Object.Number(n))
      case Err(e) => Err(ExecError(e, token))
    else Err(ExecError(TypeError, token))
  }

  /** The result of a call and the stack it leaves. */
  datatype After = After(result: Result<Compiled, ExecError>, stack: seq<Object>)

  const Empty: Compiled := Compiled([])

  /** `call` of a builtin on the stack `s`: each pop either fails, and the
      call fails with the stack as far as it got, or goes on. */
  function CallEffect(b: Builtin, s: seq<Object>, token: Tokens.Token): After
    requires NoOverflow(b, s)
  {
    if b.Dup? then DupEffect(s, token)
    else if b.DropTop? then DropEffect(s, token)
    else if b.Not? then NotEffect(s, token)
    else BinaryEffect(b, s, token)
  }

  /** `dup`: peeks the top and pushes a copy of a number. */
  function DupEffect(s: seq<Object>, token: Tokens.Token): After
  {
    match PeekStack(s, token)
    case Err(e) => After(Err(e), s)
    case Ok(x) =>
      if x.Number? then After(Ok(Empty), s + [x])
      else After(Err(ExecError(TypeError, token)), s)
  }

  /** `drop`: pops the top, whatever it is. */
  function DropEffect(s: seq<Object>, token: Tokens.Token): After
  {
    var py := PopStack(s, token);
    if py.result.Err? then After(Err(py.result.error), py.rest) else After(Ok(Empty), py.rest)
  }

  /** `~`: pops a number and pushes its complement. */
  function NotEffect(s: seq<Object>, token: Tokens.Token): After
  {
    var py := PopStack(s, token);
    if py.result.Err? then After(Err(py.result.error), py.rest)
    else if py.result.value.Number? then After(Ok(Empty), py.rest + [Object.Number(Arith.Not(py.result.value.n))])
    else After(Err(ExecError(TypeError, token)), py.rest)
  }

  /** The binary builtins: pop `y`, pop `x`, push what `Combine` gives. */
  function BinaryEffect(b: Builtin, s: seq<Object>, token: Tokens.Token): After
    requires IsBinary(b) && NoOverflow(b, s)
  {
    var py := PopStack(s, token);
    if py.result.Err? then After(Err(py.result.error), py.rest)
    else
      var px := PopStack(py.rest, token);
      if px.result.Err? then After(Err(px.result.error), px.rest)
      else
        match Combine(b, px.result.value, py.result.value, token)
        case Ok(v) => After(Ok(Empty), px.rest + [v])
        case Err(e) => After(Err(e), px.rest)
  }

  /** `Callable::call` of the builtin `b`. */
  method Call(b: Builtin, interp: Interpreter, token: Tokens.Token) returns (r: Result<Compiled, ExecError>)
    requires NoOverflow(b, interp.stack)
    modifies interp
    ensures r == CallEffect(b, old(interp.stack), token).result
    ensures interp.stack == CallEffect(b, old(interp.stack), token).stack
  {
    if b.Dup? {
      r := CallDup(interp, token);
    } else if b.DropTop? {
      r := CallDrop(interp, token);
    } else if b.Not? {
      r := CallNot(interp, token);
    } else {
      r := CallBinary(b, interp, token);
    }
  }

  /** `Dup::call`. */
  method CallDup(interp: Interpreter, token: Tokens.Token) returns (r: Result<Compiled, ExecError>)
    modifies interp
    ensures r == DupEffect(old(interp.stack), token).result
    ensures interp.stack == DupEffect(old(interp.stack), token).stack
  {
    var x := interp.Peek(token);
    if x.Err? {
      return Err(x.error);
    }
    match x.value {
      case Number(n1) => interp.Push(Object.Number(n1));
      case _ => return Err(ExecError(TypeError, token));
    }
    return Ok(Empty);
  }

  /** `DropTop::call`. */
  method CallDrop(interp: Interpreter, token: Tokens.Token) returns (r: Result<Compiled, ExecError>)
    modifies interp
    ensures r == DropEffect(old(interp.stack), token).result
    ensures interp.stack == DropEffect(old(interp.stack), token).stack
  {
    var x := interp.Pop(token);
    if x.Err? {
      return Err(x.error);
    }
    return Ok(Empty);
  }

  /** `Not::call`. */
  method CallNot(interp: Interpreter, token: Tokens.Token) returns (r: Result<Compiled, ExecError>)
    modifies interp
    ensures r == NotEffect(old(interp.stack), token).result
    ensures interp.stack == NotEffect(old(interp.stack), token).stack
  {
    var y := interp.Pop(token);
    if y.Err? {
      return Err(y.error);
    }
    match y.value {
      case Number(n1) => interp.Push(Object.Number(Arith.Not(n1)));
      case _ => return Err(ExecError(TypeError, token));
    }
    return Ok(Empty);
  }

  /** `call` of `Add`, `Sub`, `Mul`, `Div`, `Mod`, `And`, `Or`, `Xor`,
      `Equal` and `NotEqual`. */
  method CallBinary(b: Builtin, interp: Interpreter, token: Tokens.Token) returns (r: Result<Compiled, ExecError>)
    requires IsBinary(b) && NoOverflow(b, interp.stack)
    modifies interp
    ensures r == BinaryEffect(b, old(interp.stack), token).result
    ensures interp.stack == BinaryEffect(b, old(interp.stack), token).stack
  {
    var y := interp.Pop(token);
    if y.Err? {
      return Err(y.error);
    }
    var x := interp.Pop(token);
    if x.Err? {
      return Err(x.error);
    }
    var v := Combine(b, x.value, y.value, token);
    if v.Err? {
      return Err(v.error);
    }
    interp.Push(v.value);
    return Ok(Empty);
  }

  /** The compiler's integer width. */
  datatype StackMode = Int8Mode | Int16Mode | Int32Mode | Int64Mode

  /** The compiled builtins `i8`, `i16`, `i32`, `i64`. */
  datatype Width = Int8 | Int16 | Int32 | Int64

  /** The width each compiled builtin selects. */
  function ModeOf(w: Width): StackMode
  {
    match w
    case Int8 => Int8Mode
    case Int16 => Int16Mode
    case Int32 => Int32Mode
    case Int64 => Int64Mode
  }

  /** `Callable::mode` of a compiled builtin: always inline. */
  function Mode(w: Width): (m: DefineMode)
    ensures m == Inline
  {
    Inline
  }

  /** The compiler state the compiled builtins change. */
  class Compiler {
    var stackMode: StackMode

    constructor(mode: StackMode)
      ensures stackMode == mode
    {
      stackMode := mode;
    }
  }

  /** `Callable::compile` of `i8`, `i16`, `i32`, `i64`: selects the width
      and compiles to nothing. */
  method Compile(w: Width, compiler: Compiler, token: Tokens.Token) returns (r: Result<Compiled, ExecError>)
    modifies compiler
    ensures compiler.stackMode == ModeOf(w)
    ensures r == Ok(Empty)
  {
    match w {
      case Int8 => compiler.stackMode := Int8Mode;
      case Int16 => compiler.stackMode := Int16Mode;
      case Int32 => compiler.stackMode := Int32Mode;
      case Int64 => compiler.stackMode := Int64Mode;
    }
    return Ok(Empty);
  }
}
