/** The postfix evaluator `eval_equation`: an operand stack where a number
    is pushed and an operator pops its right operand, then its left operand,
    and pushes the result.  The stack's top is the LAST element. */
module PostfixEval {
  import opened Tokens

  /** One entry of the queue applied to the operand stack. */
  function Apply(n: Numerics, st: seq<real>, t: Token): Result<seq<real>> {
    match NumberOf(t)
    case Some(v) => Ok(st + [v])
    case None =>
      if |st| < 2 then Err(StackUnderflow)
      else
        match OpOf(t.s)
        case None => Err(UndefinedOperator(t.s))
        case Some(o) => Ok(st[..|st| - 2] + [BinOp(n, o, st[|st| - 2], st[|st| - 1])])
  }

  /** The operand stack after the queue `q`, or the first error. */
  function Run(n: Numerics, q: seq<Token>): Result<seq<real>> {
    if q == [] then Ok([])
    else
      match Run(n, q[..|q| - 1])
      case Err(e) => Err(e)
      case Ok(st) => Apply(n, st, q[|q| - 1])
  }

  /** The value of a postfix queue: the single value left on the stack. */
  function EvalPostfix(n: Numerics, q: seq<Token>): Result<real> {
    match Run(n, q)
    case Err(e) => Err(e)
    case Ok(st) =>
      if |st| > 1 then Err(MalformedEquation)
      else if |st| == 0 then Err(StackUnderflow)
      else Ok(st[0])
  }

  /** Once the run has failed on a prefix it fails the same way on the
      whole queue. */
  lemma {:induction false} RunKeepsError(n: Numerics, q: seq<Token>, k: nat)
    requires k <= |q| && Run(n, q[..k]).Err?
    ensures Run(n, q) == Run(n, q[..k])
    decreases |q| - k
  {
    if k < |q| {
      assert q[..k + 1][..k] == q[..k];
      RunKeepsError(n, q, k + 1);
    } else {
      assert q[..k] == q;
    }
  }

  /** `eval_equation`. */
  method EvalEquation(n: Numerics, queue: seq<Token>) returns (r: Result<real>)
    ensures r == EvalPostfix(n, queue)
  {
    var stack: seq<real> := [];
    for k := 0 to |queue|
      invariant Run(n, queue[..k]) == Ok(stack)
    {
      var element := queue[k];
      assert queue[..k + 1][..k] == queue[..k];
      var x := NumberOf(element);
      if x.Some? {
        stack := stack + [x.value];
      } else {
        if |stack| < 2 {
          RunKeepsError(n, queue, k + 1);
          return Err(StackUnderflow);
        }
        var op2 := stack[|stack| - 1];
        var op1 := stack[|stack| - 2];
        stack := stack[..|stack| - 2];
        var o := OpOf(element.s);
        if o.None? {
          RunKeepsError(n, queue, k + 1);
          return Err(UndefinedOperator(element.s));
        }
        stack := stack + [BinOp(n, o.value, op1, op2)];
      }
    }
    assert queue[..|queue|] == queue;
    if |stack| > 1 {
      return Err(MalformedEquation);
    }
    if |stack| == 0 {
      return Err(StackUnderflow);
    }
    return Ok(stack[0]);
  }

  // ---------------------------------------------------------------------
  // Stack height
  // ---------------------------------------------------------------------

  /** A queue entry the evaluator understands: a number, or the text of a
      table operator. */
  predicate Known(t: Token) {
    NumberOf(t).Some? || (t.Str? && OpOf(t.s).Some?)
  }

  /** Numbers minus operators in `q`: the stack height `q` leaves. */
  function Height(q: seq<Token>): int {
    if q == [] then 0
    else Height(q[..|q| - 1]) + (if NumberOf(q[|q| - 1]).Some? then 1 else -1)
  }

  /** Every operator finds two operands: each prefix ending in an operator
      leaves a height of at least one. */
  predicate Balanced(q: seq<Token>) {
    forall k :: 0 < k <= |q| ==> NumberOf(q[k - 1]).Some? || Height(q[..k]) >= 1
  }

  /** A queue of known entries in which every operator finds two operands
      runs without error and leaves exactly its height on the stack. */
  lemma {:induction false} RunHeight(n: Numerics, q: seq<Token>)
    requires forall k :: 0 <= k < |q| ==> Known(q[k])
    requires Balanced(q)
    ensures Run(n, q).Ok? && |Run(n, q).value| == Height(q)
  {
    if q != [] {
      var p := q[..|q| - 1];
      assert forall k :: 0 <= k < |p| ==> p[k] == q[k];
      assert Balanced(p) by {
        forall k | 0 < k <= |p|
          ensures NumberOf(p[k - 1]).Some? || Height(p[..k]) >= 1
        {
          assert p[..k] == q[..k];
        }
      }
      RunHeight(n, p);
      assert q[..|q|] == q;
    }
  }

  /** Such a queue has a value exactly when its height is one, and it is
      malformed when more than one value is left. */
  lemma EvalByHeight(n: Numerics, q: seq<Token>)
    requires forall k :: 0 <= k < |q| ==> Known(q[k])
    requires Balanced(q)
    ensures EvalPostfix(n, q).Ok? <==> Height(q) == 1
    ensures Height(q) > 1 ==> EvalPostfix(n, q) == Err(MalformedEquation)
  {
    RunHeight(n, q);
  }

  /** An operator with fewer than two operands below it is an error. */
  lemma {:induction false} UnderflowIsError(n: Numerics, q: seq<Token>, k: nat)
    requires k < |q| && NumberOf(q[k]).None?
    requires Run(n, q[..k]).Ok? && |Run(n, q[..k]).value| < 2
    ensures EvalPostfix(n, q) == Err(StackUnderflow)
  {
    assert q[..k + 1][..k] == q[..k];
    RunKeepsError(n, q, k + 1);
  }
}
