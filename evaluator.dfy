/** `_parse_and_eval`: scans the token list, replaces every parenthesised
    block (bare, or the argument of a named function) by the value of the
    block, evaluated recursively, and sends the flattened list through
    constant substitution, unary-minus resolution, the Shunting Yard and
    the postfix evaluator, in that order. */
module Evaluator {
  import opened Tokens
  import opened Blocks
  import opened Substitute
  import opened Unary
  import opened Shunting
  import opened PostfixEval

  /** The four stages applied to the flattened list. */
  function Stages(n: Numerics, ts: seq<Token>): Result<real> {
    match Resolve(Substituted(ts))
    case Err(e) => Err(e)
    case Ok(u) =>
      match Postfix(u)
      case Err(e) => Err(e)
      case Ok(q) => EvalPostfix(n, q)
  }

  /** The value of a token list. */
  function Evaluate(n: Numerics, eq: seq<string>): Result<real>
    decreases |eq|, |eq| + 1, 0
  {
    match FlattenFrom(n, eq, 0)
    case Err(e) => Err(e)
    case Ok(ts) => Stages(n, ts)
  }

  /** The flattened list from position `i` on: a function name and its
      block become the function's value, a bare block becomes its value, and
      any other token is copied. */
  function FlattenFrom(n: Numerics, eq: seq<string>, i: nat): Result<seq<Token>>
    decreases |eq|, |eq| - i, 1
  {
    if i >= |eq| then Ok([])
    else if IsFunctionName(eq[i]) then FunctionAt(n, eq, i)
    else if eq[i] == "(" then BlockAt(n, eq, i)
    else Prepend([Str(eq[i])], FlattenFrom(n, eq, i + 1))
  }

  /** A function name at `i`: it must be followed by `(`; the function is
      applied to the value of the block. */
  function FunctionAt(n: Numerics, eq: seq<string>, i: nat): Result<seq<Token>>
    requires i < |eq|
    decreases |eq|, |eq| - i, 0
  {
    if i + 1 >= |eq| then Err(MissingToken)
    else if eq[i + 1] != "(" then Err(UnopenedParenthesis)
    else
      match Enclosed(n, eq, i + 2)
      case Err(e) => Err(e)
      case Ok((v, next)) =>
        match n.func(eq[i], v)
        case None => Err(FunctionError(eq[i]))
        case Some(w) => Prepend([Val(w)], FlattenFrom(n, eq, next))
  }

  /** A bare block opened at `i`. */
  function BlockAt(n: Numerics, eq: seq<string>, i: nat): Result<seq<Token>>
    requires i < |eq|
    decreases |eq|, |eq| - i, 0
  {
    match Enclosed(n, eq, i + 1)
    case Err(e) => Err(e)
    case Ok((v, next)) => Prepend([Val(v)], FlattenFrom(n, eq, next))
  }

  /** The value of the block whose contents start at `i0`, and the index
      past its closing `)`. */
  function Enclosed(n: Numerics, eq: seq<string>, i0: nat): (r: Result<(real, nat)>)
    ensures r.Ok? ==> i0 < r.value.1 <= |eq|
    decreases |eq|, 0, 0
  {
    match Closing(eq, i0)
    case None => Err(MalformedParenthesis(Rest(eq, i0)))
    case Some(j) =>
      match Evaluate(n, eq[i0..j])
      case Err(e) => Err(e)
      case Ok(v) => Ok((v, j + 1))
  }

  /** A failure at any point of the scan is the failure of the whole list. */
  lemma ScanFails(n: Numerics, eq: seq<string>, tokens: seq<Token>, i: nat)
    requires Prepend(tokens, FlattenFrom(n, eq, i)) == FlattenFrom(n, eq, 0)
    requires FlattenFrom(n, eq, i).Err?
    ensures Evaluate(n, eq) == Err(FlattenFrom(n, eq, i).error)
  {
  }

  /** `_parse_and_eval`. */
  method ParseAndEval(n: Numerics, equation: seq<string>) returns (r: Result<real>)
    ensures r == Evaluate(n, equation)
    decreases |equation|, 1
  {
    var tokens: seq<Token> := [];
    var i := 0;
    PrependNothing(FlattenFrom(n, equation, 0));
    while i < |equation|
      invariant i <= |equation|
      invariant Prepend(tokens, FlattenFrom(n, equation, i)) == FlattenFrom(n, equation, 0)
      decreases |equation| - i
    {
      var at := i;
      if IsFunctionName(equation[i]) {
        var func := equation[i];
        i := i + 1;
        if i >= |equation| {
          ScanFails(n, equation, tokens, at);
          return Err(MissingToken);
        }
        if equation[i] != "(" {
          ScanFails(n, equation, tokens, at);
          return Err(UnopenedParenthesis);
        }
        i := i + 1;
        var inner := EvalBlock(n, equation, i);
        if inner.Err? {
          ScanFails(n, equation, tokens, at);
          return Err(inner.error);
        }
        var value := n.func(func, inner.value.0);
        if value.None? {
          ScanFails(n, equation, tokens, at);
          return Err(FunctionError(func));
        }
        PrependTwice(tokens, [Val(value.value)], FlattenFrom(n, equation, inner.value.1));
        tokens := tokens + [Val(value.value)];
        i := inner.value.1;
      } else if equation[i] == "(" {
        i := i + 1;
        var inner := EvalBlock(n, equation, i);
        if inner.Err? {
          ScanFails(n, equation, tokens, at);
          return Err(inner.error);
        }
        PrependTwice(tokens, [Val(inner.value.0)], FlattenFrom(n, equation, inner.value.1));
        tokens := tokens + [Val(inner.value.0)];
        i := inner.value.1;
      } else {
        PrependTwice(tokens, [Str(equation[i])], FlattenFrom(n, equation, i + 1));
        tokens := tokens + [Str(equation[i])];
        i := i + 1;
      }
    }
    assert tokens + [] == tokens;
    var list := new Token[|tokens|](k requires 0 <= k < |tokens| => tokens[k]);
    assert list[..] == tokens;
    SubstituteVars(list);
    var unary := ParseUnary(list[..]);
    if unary.Err? {
      return Err(unary.error);
    }
    var queue := ConstructPostfixQueue(unary.value);
    if queue.Err? {
      return Err(queue.error);
    }
    r := EvalEquation(n, queue.value);
  }

  /** The part both kinds of block share: `_handle_parenthesis` from `i0`
      with an empty block list, then the recursive evaluation of the block. */
  method EvalBlock(n: Numerics, equation: seq<string>, i0: nat) returns (r: Result<(real, nat)>)
    ensures r == Enclosed(n, equation, i0)
    decreases |equation|, 0
  {
    var next, block := HandleParenthesis(i0, equation, []);
    if next.Err? {
      assert [] + Rest(equation, i0) == Rest(equation, i0);
      return Err(next.error);
    }
    assert block == equation[i0..next.value - 1];
    var inner := ParseAndEval(n, block);
    if inner.Err? {
      return Err(inner.error);
    }
    return Ok((inner.value, next.value));
  }

  // ---------------------------------------------------------------------
  // Properties of the scan
  // ---------------------------------------------------------------------

  /** A token of the flattened list that the scan would have treated as the
      start of a block. */
  predicate Opens(t: Token) {
    t.Str? && (t.s == "(" || IsFunctionName(t.s))
  }

  /** The text tokens `ws` as list entries. */
  function Lift(ws: seq<string>): (ts: seq<Token>)
    ensures |ts| == |ws| && forall k :: 0 <= k < |ws| ==> ts[k] == Str(ws[k])
  {
    seq(|ws|, k requires 0 <= k < |ws| => Str(ws[k]))
  }

  /** No `(` and no function name is left in the flattened list: every
      block has been replaced by a value. */
  lemma {:induction false} FlattenedHasNoBlocks(n: Numerics, eq: seq<string>, i: nat)
    requires FlattenFrom(n, eq, i).Ok?
    ensures forall k :: 0 <= k < |FlattenFrom(n, eq, i).value| ==> !Opens(FlattenFrom(n, eq, i).value[k])
    decreases |eq| - i
  {
    if i < |eq| {
      var next: nat;
      if IsFunctionName(eq[i]) {
        next := Enclosed(n, eq, i + 2).value.1;
      } else if eq[i] == "(" {
        next := Enclosed(n, eq, i + 1).value.1;
      } else {
        next := i + 1;
      }
      FlattenedHasNoBlocks(n, eq, next);
      var head := FlattenFrom(n, eq, i).value[0];
      assert FlattenFrom(n, eq, i) == Prepend([head], FlattenFrom(n, eq, next));
    }
  }

  /** A list without `(` and without function names is copied through as it
      is. */
  lemma {:induction false} FlatListCopied(n: Numerics, eq: seq<string>, i: nat)
    requires i <= |eq|
    requires forall k :: i <= k < |eq| ==> eq[k] != "(" && !IsFunctionName(eq[k])
    ensures FlattenFrom(n, eq, i) == Ok(Lift(eq[i..]))
    decreases |eq| - i
  {
    if i < |eq| {
      FlatListCopied(n, eq, i + 1);
      assert Lift(eq[i..]) == [Str(eq[i])] + Lift(eq[i + 1..]);
    } else {
      assert Lift(eq[i..]) == [];
    }
  }

  /** A function name must be followed by `(`: otherwise the list has no
      value. */
  lemma FunctionNeedsParenthesis(n: Numerics, eq: seq<string>, tokens: seq<Token>, i: nat)
    requires i < |eq| && IsFunctionName(eq[i])
    requires Prepend(tokens, FlattenFrom(n, eq, i)) == FlattenFrom(n, eq, 0)
    ensures i + 1 == |eq| ==> Evaluate(n, eq) == Err(MissingToken)
    ensures i + 1 < |eq| && eq[i + 1] != "(" ==> Evaluate(n, eq) == Err(UnopenedParenthesis)
  {
    if i + 1 >= |eq| || eq[i + 1] != "(" {
      ScanFails(n, eq, tokens, i);
    }
  }

  // ---------------------------------------------------------------------
  // Every block becomes one value
  // ---------------------------------------------------------------------

  /** The block search, and the evaluation of the block found, look only
      at the entries from the block's start on. */
  lemma EnclosedShift(n: Numerics, e: seq<string>, m: nat, y: seq<string>, i0: nat, k: nat)
    requires Window(e, m, y, i0, k)
    ensures ShiftedBy(Enclosed(n, e, k), Enclosed(n, y, i0), m)
  {
    ClosingShift(e, m, y, i0, k);
    var c := Closing(y, i0);
    if c.Some? {
      EnclosedShiftFound(n, e, m, y, i0, k, c.value);
    }
  }

  lemma ClosingShift(e: seq<string>, m: nat, y: seq<string>, i0: nat, k: nat)
    requires Window(e, m, y, i0, k)
    ensures Closing(e, k) == Shifted(Closing(y, i0), m) && Rest(e, k) == Rest(y, i0)
  {
    SuffixSplit(e, m, y);
    MatchShift(e[..m], y, i0, 0);
    RestShift(e[..m], y, i0);
  }

  lemma EnclosedShiftFound(n: Numerics, e: seq<string>, m: nat, y: seq<string>, i0: nat, k: nat, j: nat)
    requires Window(e, m, y, i0, k) && Closing(y, i0) == Some(j) && Closing(e, k) == Some(m + j)
    ensures ShiftedBy(Enclosed(n, e, k), Enclosed(n, y, i0), m)
  {
    SuffixSlice(e, m, y, i0, j, k);
    EnclosedFound(n, e, k, m + j);
    EnclosedFound(n, y, i0, j);
  }

  /** `y` is `e` from `m` on, and `k` in `e` is `i` in `y`. */
  predicate Window(e: seq<string>, m: nat, y: seq<string>, i: nat, k: nat) {
    m <= |e| && y == e[m..] && k == m + i
  }

  /** `a` is the outcome `b` with its resume index moved on by `m`. */
  predicate ShiftedBy(a: Result<(real, nat)>, b: Result<(real, nat)>, m: nat) {
    && (b.Err? ==> a == b)
    && (b.Ok? ==> a.Ok? && a.value.0 == b.value.0 && a.value.1 == m + b.value.1)
  }

  lemma SuffixSplit(e: seq<string>, m: nat, y: seq<string>)
    requires m <= |e| && y == e[m..]
    ensures e == e[..m] + y && |e[..m]| == m
  {
  }

  lemma SuffixSlice(e: seq<string>, m: nat, y: seq<string>, i: nat, j: nat, k: nat)
    requires Window(e, m, y, i, k) && i <= j <= |y|
    ensures e[k..m + j] == y[i..j]
  {
  }

  lemma SuffixAt(e: seq<string>, m: nat, y: seq<string>, i: nat, k: nat)
    requires Window(e, m, y, i, k) && i < |y|
    ensures e[k] == y[i]
  {
  }

  /** The block found is evaluated, and the scan resumes after its `)`. */
  lemma EnclosedFound(n: Numerics, eq: seq<string>, i0: nat, j: nat)
    requires Closing(eq, i0) == Some(j)
    ensures Evaluate(n, eq[i0..j]).Err? ==> Enclosed(n, eq, i0) == Err(Evaluate(n, eq[i0..j]).error)
    ensures Evaluate(n, eq[i0..j]).Ok? ==>
      Enclosed(n, eq, i0).Ok? && Enclosed(n, eq, i0).value.0 == Evaluate(n, eq[i0..j]).value
      && Enclosed(n, eq, i0).value.1 == j + 1
  {
  }

  /** The scan from a position depends only on the entries from there on. */
  lemma {:induction false} FlattenShift(n: Numerics, e: seq<string>, m: nat, y: seq<string>, i: nat, k: nat)
    requires Window(e, m, y, i, k)
    ensures FlattenFrom(n, e, k) == FlattenFrom(n, y, i)
    decreases |e| - k, 3
  {
    if i < |y| {
      SuffixAt(e, m, y, i, k);
      if IsFunctionName(y[i]) {
        FunctionShift(n, e, m, y, i, k);
      } else if y[i] == "(" {
        BlockShift(n, e, m, y, i, k);
      } else {
        FlattenShift(n, e, m, y, i + 1, k + 1);
      }
    }
  }

  lemma {:induction false} FunctionShift(n: Numerics, e: seq<string>, m: nat, y: seq<string>, i: nat, k: nat)
    requires Window(e, m, y, i, k) && i < |y|
    ensures FunctionAt(n, e, k) == FunctionAt(n, y, i)
    decreases |e| - k, 2
  {
    if i + 1 < |y| {
      SuffixAt(e, m, y, i + 1, k + 1);
      if y[i + 1] == "(" {
        CallShift(n, e, m, y, i, k);
      }
    }
  }

  lemma {:induction false} CallShift(n: Numerics, e: seq<string>, m: nat, y: seq<string>, i: nat, k: nat)
    requires Window(e, m, y, i, k) && i + 1 < |y| && y[i + 1] == "("
    ensures FunctionAt(n, e, k) == FunctionAt(n, y, i)
    decreases |e| - k, 1
  {
    EnclosedShift(n, e, m, y, i + 2, k + 2);
    var r := Enclosed(n, y, i + 2);
    if r.Ok? {
      var v, next := OkPair(Enclosed(n, e, k + 2), r, m);
      CallShiftOk(n, e, m, y, i, k, v, next);
    } else {
      CallShiftErr(n, e, m, y, i, k);
    }
  }

  lemma {:induction false} CallShiftOk(n: Numerics, e: seq<string>, m: nat, y: seq<string>, i: nat, k: nat, v: real, next: nat)
    requires Window(e, m, y, i, k) && i + 1 < |y| && y[i + 1] == "("
    requires Enclosed(n, y, i + 2) == Ok((v, next)) && Enclosed(n, e, k + 2) == Ok((v, m + next))
    ensures FunctionAt(n, e, k) == FunctionAt(n, y, i)
    decreases |e| - k, 0
  {
    SuffixAt(e, m, y, i, k);
    SuffixAt(e, m, y, i + 1, k + 1);
    CallResult(n, e, k, v, m + next);
    CallResult(n, y, i, v, next);
    FlattenShift(n, e, m, y, next, m + next);
  }

  lemma CallShiftErr(n: Numerics, e: seq<string>, m: nat, y: seq<string>, i: nat, k: nat)
    requires Window(e, m, y, i, k) && i + 1 < |y| && y[i + 1] == "("
    requires Enclosed(n, y, i + 2).Err? && Enclosed(n, e, k + 2) == Enclosed(n, y, i + 2)
    ensures FunctionAt(n, e, k) == FunctionAt(n, y, i)
  {
    SuffixAt(e, m, y, i + 1, k + 1);
    CallError(n, e, k);
    CallError(n, y, i);
  }

  lemma {:induction false} BlockShift(n: Numerics, e: seq<string>, m: nat, y: seq<string>, i: nat, k: nat)
    requires Window(e, m, y, i, k) && i < |y|
    ensures BlockAt(n, e, k) == BlockAt(n, y, i)
    decreases |e| - k, 2
  {
    EnclosedShift(n, e, m, y, i + 1, k + 1);
    var r := Enclosed(n, y, i + 1);
    if r.Ok? {
      var v, next := OkPair(Enclosed(n, e, k + 1), r, m);
      BlockShiftOk(n, e, m, y, i, k, v, next);
    } else {
      BlockShiftErr(n, e, m, y, i, k);
    }
  }

  lemma {:induction false} BlockShiftOk(n: Numerics, e: seq<string>, m: nat, y: seq<string>, i: nat, k: nat, v: real, next: nat)
    requires Window(e, m, y, i, k) && i < |y|
    requires Enclosed(n, y, i + 1) == Ok((v, next)) && Enclosed(n, e, k + 1) == Ok((v, m + next))
    ensures BlockAt(n, e, k) == BlockAt(n, y, i)
    decreases |e| - k, 0
  {
    BlockResult(n, e, k, v, m + next);
    BlockResult(n, y, i, v, next);
    FlattenShift(n, e, m, y, next, m + next);
  }

  lemma BlockShiftErr(n: Numerics, e: seq<string>, m: nat, y: seq<string>, i: nat, k: nat)
    requires Window(e, m, y, i, k) && i < |y|
    requires Enclosed(n, y, i + 1).Err? && Enclosed(n, e, k + 1) == Enclosed(n, y, i + 1)
    ensures BlockAt(n, e, k) == BlockAt(n, y, i)
  {
    BlockError(n, e, k);
    BlockError(n, y, i);
  }

  /** A successful outcome and its shifted copy. */
  lemma OkPair(a: Result<(real, nat)>, b: Result<(real, nat)>, m: nat) returns (v: real, next: nat)
    requires ShiftedBy(a, b, m) && b.Ok?
    ensures b == Ok((v, next)) && a == Ok((v, m + next))
  {
    v, next := b.value.0, b.value.1;
  }

  lemma CallError(n: Numerics, eq: seq<string>, i: nat)
    requires i + 1 < |eq| && eq[i + 1] == "(" && Enclosed(n, eq, i + 2).Err?
    ensures FunctionAt(n, eq, i) == Err(Enclosed(n, eq, i + 2).error)
  {
  }

  lemma BlockError(n: Numerics, eq: seq<string>, i: nat)
    requires i < |eq| && Enclosed(n, eq, i + 1).Err?
    ensures BlockAt(n, eq, i) == Err(Enclosed(n, eq, i + 1).error)
  {
  }

  /** The function call at `i` once its block has the value `v` and ends
      before `next`. */
  lemma CallResult(n: Numerics, eq: seq<string>, i: nat, v: real, next: nat)
    requires i + 1 < |eq| && eq[i + 1] == "(" && Enclosed(n, eq, i + 2) == Ok((v, next))
    ensures i + 2 < next <= |eq|
    ensures n.func(eq[i], v).None? ==> FunctionAt(n, eq, i) == Err(FunctionError(eq[i]))
    ensures n.func(eq[i], v).Some? ==>
      FunctionAt(n, eq, i) == Prepend([Val(n.func(eq[i], v).value)], FlattenFrom(n, eq, next))
  {
  }

  /** The bare block at `i` once it has the value `v` and ends before
      `next`. */
  lemma BlockResult(n: Numerics, eq: seq<string>, i: nat, v: real, next: nat)
    requires i < |eq| && Enclosed(n, eq, i + 1) == Ok((v, next))
    ensures i + 1 < next <= |eq|
    ensures BlockAt(n, eq, i) == Prepend([Val(v)], FlattenFrom(n, eq, next))
  {
  }

  lemma OkParts(r: Result<(real, nat)>) returns (v: real, next: nat)
    requires r.Ok?
    ensures r == Ok((v, next))
  {
    v, next := r.value.0, r.value.1;
  }

  /** Tokens that open no block are copied up to position `m`. */
  lemma {:induction false} CopiedUpTo(n: Numerics, eq: seq<string>, i: nat, m: nat)
    requires i <= m <= |eq|
    requires forall k :: i <= k < m ==> eq[k] != "(" && !IsFunctionName(eq[k])
    ensures FlattenFrom(n, eq, i) == Prepend(Lift(eq[i..m]), FlattenFrom(n, eq, m))
    decreases m - i
  {
    if i < m {
      CopiedUpTo(n, eq, i + 1, m);
      assert Lift(eq[i..m]) == [Str(eq[i])] + Lift(eq[i + 1..m]);
      PrependTwice([Str(eq[i])], Lift(eq[i + 1..m]), FlattenFrom(n, eq, m));
    } else {
      assert Lift(eq[i..m]) == [];
      PrependNothing(FlattenFrom(n, eq, m));
    }
  }

  /** Tokens that open no block. */
  predicate Flat(ws: seq<string>) {
    forall k :: 0 <= k < |ws| ==> ws[k] != "(" && !IsFunctionName(ws[k])
  }

  lemma FlatFront(n: Numerics, pre: seq<string>, rest: seq<string>)
    requires Flat(pre)
    ensures FlattenFrom(n, pre + rest, 0) == Prepend(Lift(pre), FlattenFrom(n, pre + rest, |pre|))
  {
    CopiedUpTo(n, pre + rest, 0, |pre|);
    assert (pre + rest)[0..|pre|] == pre;
  }

  /** A matched block that evaluates to `v` and is followed by `)` gives
      `v` and the index past that `)`. */
  lemma EnclosedValue(n: Numerics, eq: seq<string>, i: nat, blk: seq<string>, v: real)
    requires Matched(blk) && i + |blk| < |eq|
    requires eq[i..i + |blk|] == blk && eq[i + |blk|] == ")"
    requires Evaluate(n, blk) == Ok(v)
    ensures Enclosed(n, eq, i).Ok?
    ensures Enclosed(n, eq, i).value.0 == v && Enclosed(n, eq, i).value.1 == i + |blk| + 1
  {
    BlockCloses(eq, i, blk);
  }

  lemma Layout(pre: seq<string>, mid: seq<string>, blk: seq<string>, post: seq<string>)
    ensures var eq := pre + mid + blk + [")"] + post;
      var i := |pre| + |mid|;
      && eq[..|pre|] == pre && eq[|pre|..i] == mid
      && i + |blk| < |eq| && eq[i..i + |blk|] == blk && eq[i + |blk|] == ")"
      && eq == (pre + mid + blk + [")"]) + post
      && eq == pre + (mid + blk + [")"] + post)
  {
  }

  /** The scan at a bare block whose value is `v` and which ends before
      `next`. */
  lemma BlockStep(n: Numerics, eq: seq<string>, i: nat, v: real, next: nat)
    requires i < |eq| && eq[i] == "(" && Enclosed(n, eq, i + 1).Ok?
    requires Enclosed(n, eq, i + 1).value.0 == v && Enclosed(n, eq, i + 1).value.1 == next
    ensures FlattenFrom(n, eq, i) == Prepend([Val(v)], FlattenFrom(n, eq, next))
  {
    assert !IsFunctionName(eq[i]);
    var v', next' := OkParts(Enclosed(n, eq, i + 1));
    BlockResult(n, eq, i, v', next');
  }

  /** The scan at a call of `f` whose block value is `v` and which ends
      before `next`. */
  lemma CallStep(n: Numerics, eq: seq<string>, i: nat, v: real, w: real, next: nat)
    requires i + 1 < |eq| && IsFunctionName(eq[i]) && eq[i + 1] == "(" && Enclosed(n, eq, i + 2).Ok?
    requires Enclosed(n, eq, i + 2).value.0 == v && Enclosed(n, eq, i + 2).value.1 == next
    requires n.func(eq[i], v) == Some(w)
    ensures FlattenFrom(n, eq, i) == Prepend([Val(w)], FlattenFrom(n, eq, next))
  {
    var v', next' := OkParts(Enclosed(n, eq, i + 2));
    CallResult(n, eq, i, v', next');
  }

  /** A balanced block in parentheses is replaced by its value, and the
      scan goes on after its `)` as if the block had never been there. */
  lemma BlockBecomesValue(n: Numerics, pre: seq<string>, blk: seq<string>, post: seq<string>, v: real)
    requires Flat(pre) && Matched(blk) && Evaluate(n, blk) == Ok(v)
    ensures FlattenFrom(n, pre + ["("] + blk + [")"] + post, 0)
      == Prepend(Lift(pre) + [Val(v)], FlattenFrom(n, post, 0))
  {
    var x := pre + ["("] + blk + [")"];
    var eq := x + post;
    var i := |pre|;
    Layout(pre, ["("], blk, post);
    FlatFront(n, pre, ["("] + blk + [")"] + post);
    EnclosedValue(n, eq, i + 1, blk, v);
    BlockStep(n, eq, i, v, |x|);
    assert eq[|x|..] == post;
    FlattenShift(n, eq, |x|, post, 0, |x|);
    PrependTwice(Lift(pre), [Val(v)], FlattenFrom(n, post, 0));
  }

  /** A function name with a balanced block in parentheses is replaced by
      the function's value at the block's value. */
  lemma CallBecomesValue(n: Numerics, pre: seq<string>, f: string, blk: seq<string>, post: seq<string>, v: real, w: real)
    requires Flat(pre) && IsFunctionName(f) && Matched(blk)
    requires Evaluate(n, blk) == Ok(v) && n.func(f, v) == Some(w)
    ensures FlattenFrom(n, pre + [f, "("] + blk + [")"] + post, 0)
      == Prepend(Lift(pre) + [Val(w)], FlattenFrom(n, post, 0))
  {
    var x := pre + [f, "("] + blk + [")"];
    var eq := x + post;
    var i := |pre|;
    Layout(pre, [f, "("], blk, post);
    FlatFront(n, pre, [f, "("] + blk + [")"] + post);
    assert eq[i] == f && eq[i + 1] == "(";
    EnclosedValue(n, eq, i + 2, blk, v);
    CallStep(n, eq, i, v, w, |x|);
    assert eq[|x|..] == post;
    FlattenShift(n, eq, |x|, post, 0, |x|);
    PrependTwice(Lift(pre), [Val(w)], FlattenFrom(n, post, 0));
  }
}
