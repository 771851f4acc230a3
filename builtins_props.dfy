/** What the builtins of `lib/src/builtins.rs` promise about the stack:
    operand order, the value each one pushes, the errors each one can
    raise and how much of the stack they leave. */
module BuiltinProps {
  import opened Objects
  import Tokens
  import opened Errors
  import opened Arith
  import opened Machine
  import opened Builtins

  /** How many elements a builtin needs on the stack. */
  function Needs(b: Builtin): nat
  {
    if IsBinary(b) then 2 else 1
  }

  /** The elements a failing call has already popped when it fails. */
  function Consumed(b: Builtin, s: seq<Object>): nat
  {
    if b.Dup? then 0 else if |s| < Needs(b) then |s| else Needs(b)
  }

  /** A numeric builtin pops `y`, then `x`, and pushes `x op y`; the rest of
      the stack is untouched. */
  lemma NumericCall(b: Builtin, rest: seq<Object>, x: I64, y: I64, token: Tokens.Token)
    requires IsNumeric(b) && !Overflows(b, Object.Number(x), Object.Number(y))
    requires (b.Div? || b.Mod?) ==> y != 0
    ensures var e := CallEffect(b, rest + [Object.Number(x), Object.Number(y)], token);
      && e.result == Ok(Empty)
      && (b.Add? ==> e.stack == rest + [Object.Number(Wrap(x + y))])
      && (b.Sub? ==> e.stack == rest + [Object.Number(Wrap(x - y))])
      && (b.Mul? ==> e.stack == rest + [Object.Number(Wrap(x * y))])
      && (b.Div? ==> e.stack == rest + [Object.Number(Quot(x, y))])
      && (b.Mod? ==> e.stack == rest + [Object.Number(Rem(x, y))])
      && (b.And? ==> e.stack == rest + [Object.Number(Arith.And(x, y))])
      && (b.Or? ==> e.stack == rest + [Object.Number(Arith.Or(x, y))])
      && (b.Xor? ==> e.stack == rest + [Object.Number(Arith.Xor(x, y))])
  {
    TwoPops(rest, Object.Number(x), Object.Number(y), token);
  }

  /** Two pops from `rest + [x, y]` give `y`, then `x`, then `rest`. */
  lemma TwoPops(rest: seq<Object>, x: Object, y: Object, token: Tokens.Token)
    ensures PopStack(rest + [x, y], token) == Popped(Ok(y), rest + [x])
    ensures PopStack(rest + [x], token) == Popped(Ok(x), rest)
  {
    assert rest + [x, y] == (rest + [x]) + [y];
    PushPop(rest + [x], y, token);
    PushPop(rest, x, token);
  }

  /** The pops a call can make from `s`, one case per stack height. */
  lemma StackShapes(s: seq<Object>, token: Tokens.Token)
    ensures |s| >= 2 ==>
      && PopStack(s, token) == Popped(Ok(s[|s| - 1]), s[..|s| - 1])
      && PopStack(s[..|s| - 1], token) == Popped(Ok(s[|s| - 2]), s[..|s| - 2])
    ensures |s| == 1 ==>
      && PopStack(s, token) == Popped(Ok(s[0]), [])
      && PopStack([], token) == Popped(Err(ExecError(StackUnderflow, token)), [])
    ensures |s| == 0 ==> PopStack(s, token) == Popped(Err(ExecError(StackUnderflow, token)), [])
  {
    if |s| >= 2 {
      TwoPops(s[..|s| - 2], s[|s| - 2], s[|s| - 1], token);
      assert s == s[..|s| - 2] + [s[|s| - 2], s[|s| - 1]];
      assert s[..|s| - 1] == s[..|s| - 2] + [s[|s| - 2]];
    } else if |s| == 1 {
      assert s == [] + [s[0]];
      PushPop([], s[0], token);
    }
  }

  /** A numeric builtin on anything but two numbers is a `TypeError` on the
      calling token, with both operands already popped. */
  lemma NumericTypeError(b: Builtin, rest: seq<Object>, x: Object, y: Object, token: Tokens.Token)
    requires IsNumeric(b) && !(x.Number? && y.Number?)
    ensures CallEffect(b, rest + [x, y], token) == After(Err(ExecError(TypeError, token)), rest)
  {
    TwoPops(rest, x, y, token);
  }

  /** `/` and `%` by zero push nothing and fail with `DivisionByZero`. */
  lemma DivideByZero(b: Builtin, rest: seq<Object>, x: I64, token: Tokens.Token)
    requires b.Div? || b.Mod?
    ensures CallEffect(b, rest + [Object.Number(x), Object.Number(0)], token)
      == After(Err(ExecError(DivisionByZero, token)), rest)
  {
    TwoPops(rest, Object.Number(x), Object.Number(0), token);
  }

  /** `~` pushes the complement `-n - 1` of a number, and refuses anything
      else, which it has popped. */
  lemma NotCall(rest: seq<Object>, v: Object, token: Tokens.Token)
    ensures v.Number? ==> CallEffect(Builtin.Not, rest + [v], token) == After(Ok(Empty), rest + [Object.Number(-1 - v.n)])
    ensures !v.Number? ==> CallEffect(Builtin.Not, rest + [v], token) == After(Err(ExecError(TypeError, token)), rest)
  {
    PushPop(rest, v, token);
    if v.Number? {
      NotValue(v.n);
    }
  }

  /** `dup` pushes a copy of a number on top; on anything else it fails and
      leaves the stack as it was. */
  lemma DupCall(s: seq<Object>, token: Tokens.Token)
    requires |s| > 0
    ensures s[|s| - 1].Number? ==> CallEffect(Dup, s, token) == After(Ok(Empty), s + [s[|s| - 1]])
    ensures !s[|s| - 1].Number? ==> CallEffect(Dup, s, token) == After(Err(ExecError(TypeError, token)), s)
  {
  }

  /** `drop` removes the top, whatever its type. */
  lemma DropCall(rest: seq<Object>, v: Object, token: Tokens.Token)
    ensures CallEffect(DropTop, rest + [v], token) == After(Ok(Empty), rest)
  {
    PushPop(rest, v, token);
  }

  /** `=` and `!=` never fail on two operands: `=` pushes 1 exactly when the
      operands are equal objects (never when one is a callable), `!=` the
      opposite. */
  lemma EqualityCall(rest: seq<Object>, x: Object, y: Object, token: Tokens.Token)
    ensures CallEffect(Equal, rest + [x, y], token)
      == After(Ok(Empty), rest + [Object.Number(if x == y && !x.Callable? then 1 else 0)])
    ensures CallEffect(NotEqual, rest + [x, y], token)
      == After(Ok(Empty), rest + [Object.Number(if x == y && !x.Callable? then 0 else 1)])
  {
    TwoPops(rest, x, y, token);
  }

  /** A binary builtin on a stack of at least two elements does what
      `Combine` says to the top two; on a shorter one it underflows, having
      popped what there was. */
  lemma BinaryCases(b: Builtin, s: seq<Object>, token: Tokens.Token)
    requires IsBinary(b) && NoOverflow(b, s)
    ensures |s| < 2 ==> BinaryEffect(b, s, token) == After(Err(ExecError(StackUnderflow, token)), [])
    ensures |s| >= 2 ==>
      var c := Combine(b, s[|s| - 2], s[|s| - 1], token);
      BinaryEffect(b, s, token) == if c.Ok? then After(Ok(Empty), s[..|s| - 2] + [c.value]) else After(Err(c.error), s[..|s| - 2])
  {
    StackShapes(s, token);
  }

  /** `drop` and `~` on a non-empty stack act on the top; on an empty one
      they underflow. */
  lemma UnaryCases(s: seq<Object>, token: Tokens.Token)
    ensures |s| == 0 ==> DropEffect(s, token) == After(Err(ExecError(StackUnderflow, token)), [])
    ensures |s| == 0 ==> NotEffect(s, token) == After(Err(ExecError(StackUnderflow, token)), [])
    ensures |s| > 0 ==> DropEffect(s, token) == After(Ok(Empty), s[..|s| - 1])
    ensures |s| > 0 && s[|s| - 1].Number? ==>
      NotEffect(s, token) == After(Ok(Empty), s[..|s| - 1] + [Object.Number(Arith.Not(s[|s| - 1].n))])
    ensures |s| > 0 && !s[|s| - 1].Number? ==>
      NotEffect(s, token) == After(Err(ExecError(TypeError, token)), s[..|s| - 1])
  {
    StackShapes(s, token);
  }

  /** The underflow cases of the binary builtins. */
  lemma BinaryUnderflow(b: Builtin, s: seq<Object>, token: Tokens.Token)
    requires IsBinary(b) && NoOverflow(b, s)
    ensures var e := CallEffect(b, s, token);
      (e.result.Err? && e.result.error.errorType == StackUnderflow) <==> |s| < Needs(b)
    ensures |s| < Needs(b) ==> CallEffect(b, s, token) == After(Err(ExecError(StackUnderflow, token)), [])
  {
    BinaryCases(b, s, token);
    assert CallEffect(b, s, token) == BinaryEffect(b, s, token);
  }

  /** The underflow cases of `dup`. */
  lemma DupUnderflow(s: seq<Object>, token: Tokens.Token)
    ensures var e := CallEffect(Dup, s, token);
      (e.result.Err? && e.result.error.errorType == StackUnderflow) <==> |s| < Needs(Dup)
    ensures |s| < Needs(Dup) ==> CallEffect(Dup, s, token) == After(Err(ExecError(StackUnderflow, token)), [])
  {
    assert CallEffect(Dup, s, token) == DupEffect(s, token);
    if |s| == 0 {
      assert PeekStack(s, token) == Err(ExecError(StackUnderflow, token));
    } else {
      assert PeekStack(s, token).Ok?;
    }
  }

  /** The underflow cases of `drop`. */
  lemma DropUnderflow(s: seq<Object>, token: Tokens.Token)
    ensures var e := CallEffect(DropTop, s, token);
      (e.result.Err? && e.result.error.errorType == StackUnderflow) <==> |s| < Needs(DropTop)
    ensures |s| < Needs(DropTop) ==> CallEffect(DropTop, s, token) == After(Err(ExecError(StackUnderflow, token)), [])
  {
    UnaryCases(s, token);
    assert CallEffect(DropTop, s, token) == DropEffect(s, token);
  }

  /** The underflow cases of `~`. */
  lemma NotUnderflow(s: seq<Object>, token: Tokens.Token)
    ensures var e := CallEffect(Builtin.Not, s, token);
      (e.result.Err? && e.result.error.errorType == StackUnderflow) <==> |s| < Needs(Builtin.Not)
    ensures |s| < Needs(Builtin.Not) ==> CallEffect(Builtin.Not, s, token) == After(Err(ExecError(StackUnderflow, token)), [])
  {
    UnaryCases(s, token);
    assert CallEffect(Builtin.Not, s, token) == NotEffect(s, token);
  }

  /** A call underflows exactly when the stack holds fewer elements than the
      builtin needs; the pops that succeeded leave the stack empty. */
  lemma UnderflowIff(b: Builtin, s: seq<Object>, token: Tokens.Token)
    requires NoOverflow(b, s)
    ensures var e := CallEffect(b, s, token);
      (e.result.Err? && e.result.error.errorType == StackUnderflow) <==> |s| < Needs(b)
    ensures |s| < Needs(b) ==> CallEffect(b, s, token) == After(Err(ExecError(StackUnderflow, token)), [])
  {
    if IsBinary(b) {
      BinaryUnderflow(b, s, token);
    } else if b.Dup? {
      DupUnderflow(s, token);
    } else if b.DropTop? {
      DropUnderflow(s, token);
    } else {
      NotUnderflow(s, token);
    }
  }

  /** A call that succeeds replaces the `Arity` operands on top by
      `Pushes` results and keeps everything below. */
  lemma CallSuccess(b: Builtin, s: seq<Object>, token: Tokens.Token)
    requires NoOverflow(b, s)
    ensures var e := CallEffect(b, s, token);
      e.result.Ok? ==>
        && |s| >= Arity(b)
        && |e.stack| == |s| - Arity(b) + Pushes(b)
        && e.stack[..|s| - Arity(b)] == s[..|s| - Arity(b)]
  {
    var e := CallEffect(b, s, token);
    if IsBinary(b) {
      BinaryCases(b, s, token);
      assert e == BinaryEffect(b, s, token);
      if e.result.Ok? {
        var c := Combine(b, s[|s| - 2], s[|s| - 1], token);
        assert e.stack == s[..|s| - 2] + [c.value];
        assert e.stack[..|s| - 2] == s[..|s| - 2];
      }
    } else if b.Dup? {
      assert e == DupEffect(s, token);
    } else if b.DropTop? {
      UnaryCases(s, token);
      assert e == DropEffect(s, token);
    } else {
      UnaryCases(s, token);
      assert e == NotEffect(s, token);
      if e.result.Ok? {
        assert e.stack[..|s| - 1] == s[..|s| - 1];
      }
    }
  }


  /** What a failing binary builtin raises and leaves. */
  lemma BinaryFailure(b: Builtin, s: seq<Object>, token: Tokens.Token)
    requires IsBinary(b) && NoOverflow(b, s)
    ensures var e := CallEffect(b, s, token);
      e.result.Err? ==>
        && e.result.error.token == token
        && e.result.error.errorType in {StackUnderflow, TypeError, DivisionByZero}
        && Consumed(b, s) <= |s|
        && e.stack == s[..|s| - Consumed(b, s)]
  {
    BinaryCases(b, s, token);
    assert CallEffect(b, s, token) == BinaryEffect(b, s, token);
    if |s| < 2 {
      assert s[..|s| - Consumed(b, s)] == [];
    }
  }

  /** What a failing `dup` raises and leaves: the stack as it was. */
  lemma DupFailure(s: seq<Object>, token: Tokens.Token)
    ensures var e := CallEffect(Dup, s, token);
      e.result.Err? ==>
        && e.result.error.token == token
        && e.result.error.errorType in {StackUnderflow, TypeError, DivisionByZero}
        && Consumed(Dup, s) <= |s|
        && e.stack == s[..|s| - Consumed(Dup, s)]
  {
    assert CallEffect(Dup, s, token) == DupEffect(s, token);
    assert s[..|s| - Consumed(Dup, s)] == s;
  }

  /** What a failing `drop` raises and leaves: the stack without its top. */
  lemma DropFailure(s: seq<Object>, token: Tokens.Token)
    ensures var e := CallEffect(DropTop, s, token);
      e.result.Err? ==>
        && e.result.error.token == token
        && e.result.error.errorType in {StackUnderflow, TypeError, DivisionByZero}
        && Consumed(DropTop, s) <= |s|
        && e.stack == s[..|s| - Consumed(DropTop, s)]
  {
    UnaryCases(s, token);
    assert CallEffect(DropTop, s, token) == DropEffect(s, token);
    if |s| == 0 {
      assert s[..0] == [];
    }
  }

  /** What a failing `~` raises and leaves: the stack without its top. */
  lemma NotFailure(s: seq<Object>, token: Tokens.Token)
    ensures var e := CallEffect(Builtin.Not, s, token);
      e.result.Err? ==>
        && e.result.error.token == token
        && e.result.error.errorType in {StackUnderflow, TypeError, DivisionByZero}
        && Consumed(Builtin.Not, s) <= |s|
        && e.stack == s[..|s| - Consumed(Builtin.Not, s)]
  {
    UnaryCases(s, token);
    assert CallEffect(Builtin.Not, s, token) == NotEffect(s, token);
    if |s| == 0 {
      assert s[..0] == [];
    }
  }

  /** A call that fails names the calling token, raises one of the three
      stack errors, and leaves the stack with only the operands popped so
      far removed. */
  lemma CallFailure(b: Builtin, s: seq<Object>, token: Tokens.Token)
    requires NoOverflow(b, s)
    ensures var e := CallEffect(b, s, token);
      e.result.Err? ==>
        && e.result.error.token == token
        && e.result.error.errorType in {StackUnderflow, TypeError, DivisionByZero}
        && Consumed(b, s) <= |s|
        && e.stack == s[..|s| - Consumed(b, s)]
  {
    if IsBinary(b) {
      BinaryFailure(b, s, token);
    } else if b.Dup? {
      DupFailure(s, token);
    } else if b.DropTop? {
      DropFailure(s, token);
    } else {
      NotFailure(s, token);
    }
  }

  /** `1 +` underflows on `+`, with the 1 already popped. */
  lemma UnderflowExample(plus: Tokens.Token)
    ensures CallEffect(Add, [Object.Number(1)], plus) == After(Err(ExecError(StackUnderflow, plus)), [])
  {
    UnderflowIff(Add, [Object.Number(1)], plus);
  }

  /** `1 0 /` divides by zero on `/`. */
  lemma DivisionByZeroExample(slash: Tokens.Token)
    ensures CallEffect(Div, [Object.Number(1), Object.Number(0)], slash)
      == After(Err(ExecError(DivisionByZero, slash)), [])
  {
    assert [] + [Object.Number(1), Object.Number(0)] == [Object.Number(1), Object.Number(0)];
    DivideByZero(Div, [], 1, slash);
  }

  /** `"Hi" 1 +` is a type error on `+`. */
  lemma TypeErrorExample(plus: Tokens.Token)
    ensures CallEffect(Add, [Object.Str("Hi"), Object.Number(1)], plus) == After(Err(ExecError(TypeError, plus)), [])
  {
    assert [] + [Object.Str("Hi"), Object.Number(1)] == [Object.Str("Hi"), Object.Number(1)];
    NumericTypeError(Add, [], Object.Str("Hi"), Object.Number(1), plus);
  }

  /** `2 2 +` leaves 4. */
  lemma AddExample(t: Tokens.Token)
    ensures CallEffect(Add, [Object.Number(2), Object.Number(2)], t) == After(Ok(Empty), [Object.Number(4)])
  {
    assert [] + [Object.Number(2), Object.Number(2)] == [Object.Number(2), Object.Number(2)];
    NumericCall(Add, [], 2, 2, t);
    WrapInRange(4);
  }

  /** `7 -2 /` is -3: the quotient rounds toward zero. */
  lemma DivExample(t: Tokens.Token)
    ensures CallEffect(Div, [Object.Number(7), Object.Number(-2)], t) == After(Ok(Empty), [Object.Number(-3)])
  {
    assert [] + [Object.Number(7), Object.Number(-2)] == [Object.Number(7), Object.Number(-2)];
    NumericCall(Div, [], 7, -2, t);
    assert Quot(7, -2) == -3;
  }

  /** `-7 2 %` is -1: the remainder takes the dividend's sign. */
  lemma ModExample(t: Tokens.Token)
    ensures CallEffect(Mod, [Object.Number(-7), Object.Number(2)], t) == After(Ok(Empty), [Object.Number(-1)])
  {
    assert [] + [Object.Number(-7), Object.Number(2)] == [Object.Number(-7), Object.Number(2)];
    NumericCall(Mod, [], -7, 2, t);
    assert Rem(-7, 2) == -1;
  }
}
