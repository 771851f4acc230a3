/** The interpreter's value stack, as the builtins of `lib/src/builtins.rs`
    use it: `push` appends, `pop` removes the last element and `peek` reads
    it, both failing with `StackUnderflow` on an empty stack. */
module Machine {
  import opened Objects
  import opened Tokens
  import opened Errors

  /** What a pop returns, and the stack it leaves. */
  datatype Popped = Popped(result: Result<Object, ExecError>, rest: seq<Object>)

  /** `pop`: the top element and the stack below it, or an underflow
      naming the calling token with the stack left as it was. */
  function PopStack(s: seq<Object>, token: Token): (p: Popped)
    ensures |s| == 0 ==> p == Popped(Err(ExecError(StackUnderflow, token)), s)
    ensures |s| > 0 ==> p.result.Ok? && p.rest + [p.result.value] == s
  {
    if |s| == 0 then Popped(Err(ExecError(StackUnderflow, token)), s)
    else Popped(Ok(s[|s| - 1]), s[..|s| - 1])
  }

  /** `peek`: the element a pop would return, without removing it. */
  function PeekStack(s: seq<Object>, token: Token): (r: Result<Object, ExecError>)
    ensures r == PopStack(s, token).result
  {
    if |s| == 0 then Err(ExecError(StackUnderflow, token)) else Ok(s[|s| - 1])
  }

  /** Popping after a push gives back the pushed value and the old stack. */
  lemma PushPop(s: seq<Object>, v: Object, token: Token)
    ensures PopStack(s + [v], token) == Popped(Ok(v), s)
    ensures PeekStack(s + [v], token) == Ok(v)
  {
    assert (s + [v])[..|s|] == s;
  }

  /** The interpreter's stack. Its statements, dictionary and halt flag
      are not part of this model. */
  class Interpreter {
    var stack: seq<Object>

    /** `Interpreter::with`: an empty stack. */
    constructor With()
      ensures stack == []
    {
      stack := [];
    }

    method Push(v: Object)
      modifies this
      ensures stack == old(stack) + [v]
    {
      stack := stack + [v];
    }

    method Pop(token: Token) returns (r: Result<Object, ExecError>)
      modifies this
      ensures r == PopStack(old(stack), token).result
      ensures stack == PopStack(old(stack), token).rest
    {
      if |stack| == 0 {
        return Err(ExecError(StackUnderflow, token));
      }
      r := Ok(stack[|stack| - 1]);
      stack := stack[..|stack| - 1];
    }

    method Peek(token: Token) returns (r: Result<Object, ExecError>)
      ensures r == PeekStack(stack, token)
    {
      if |stack| == 0 {
        return Err(ExecError(StackUnderflow, token));
      }
      return Ok(stack[|stack| - 1]);
    }
  }
}
