/** The Shunting Yard conversion `construct_postfix_queue`: a token list in
    infix order becomes an output queue in postfix order, with an operator
    stack in between.  Both the queue and the stack are held as sequences;
    the stack's top (the deque's left end) is the LAST element. */
module Shunting {
  import opened Tokens

  /** The state between two tokens: the output queue and the operator stack
      (entries are operator texts and `(`). */
  datatype Shunt = Shunt(queue: seq<Token>, stack: seq<string>)

  /** Whether the stack top `top` leaves before `op` is pushed: it binds more
      tightly, or equally and `op` groups to the left.  A text missing from
      the precedence table is a lookup error, the top's lookup first. */
  function Binds(top: string, op: string): (r: Result<bool>)
    ensures r.Err? <==> OpOf(top).None? || OpOf(op).None?
    ensures r.Ok? ==> (r.value <==>
      Prec(OpOf(top).value) > Prec(OpOf(op).value)
      || (Prec(OpOf(top).value) == Prec(OpOf(op).value) && LeftAssoc(OpOf(op).value)))
  {
    match OpOf(top)
    case None => Err(UnknownOperator(top))
    case Some(a) =>
      match OpOf(op)
      case None => Err(UnknownOperator(op))
      case Some(b) => Ok(Prec(a) > Prec(b) || (Prec(a) == Prec(b) && LeftAssoc(b)))
  }

  /** The stack entries of `s`, top first, as queue entries. */
  function TopFirst(s: seq<string>): (r: seq<Token>)
    ensures |r| == |s|
  {
    if s == [] then [] else [Str(s[|s| - 1])] + TopFirst(s[..|s| - 1])
  }

  /** Moving the top of `s[j..]` first, then the rest. */
  lemma TopFirstStep(s: seq<string>, j: nat)
    requires j < |s|
    ensures TopFirst(s[j..]) == [Str(s[|s| - 1])] + TopFirst(s[..|s| - 1][j..])
  {
    assert s[j..][..|s[j..]| - 1] == s[..|s| - 1][j..];
  }

  /** The popping loop run before operator `op` is pushed: move stack tops
      to the queue while they bind, stopping at `(` or an empty stack. */
  function PopOps(st: Shunt, op: string): (r: Result<Shunt>)
    decreases |st.stack|
  {
    var s := st.stack;
    if |s| == 0 || s[|s| - 1] == "(" then Ok(st)
    else
      match Binds(s[|s| - 1], op)
      case Err(e) => Err(e)
      case Ok(b) =>
        if !b then Ok(st)
        else PopOps(Shunt(st.queue + [Str(s[|s| - 1])], s[..|s| - 1]), op)
  }

  /** The loop after `)`: move stack tops to the queue up to the matching
      `(`, which is dropped.  Reading the top of an empty stack is an error. */
  function PopToOpen(st: Shunt): (r: Result<Shunt>)
    decreases |st.stack|
  {
    var s := st.stack;
    if |s| == 0 then Err(StackUnderflow)
    else if s[|s| - 1] == "(" then Ok(Shunt(st.queue, s[..|s| - 1]))
    else PopToOpen(Shunt(st.queue + [Str(s[|s| - 1])], s[..|s| - 1]))
  }

  /** A term stays as it is when it is a numeral or mentions a function
      name; otherwise it must convert to a number. */
  function Term(s: string): (r: Result<Token>)
    ensures r.Err? <==> !RealNum(s) && !MentionsFunction(s) && ParseFloat(s).None?
    ensures r.Ok? && r.value.Val? ==> ParseFloat(s) == Some(r.value.v)
    ensures r.Ok? && r.value.Str? ==> r.value.s == s
  {
    if RealNum(s) || MentionsFunction(s) then Ok(Str(s))
    else
      match ParseFloat(s)
      case None => Err(UndefinedVariable(s))
      case Some(v) => Ok(Val(v))
  }

  /** One pass of the `for op in tokens` loop. */
  function Consume(st: Shunt, t: Token): Result<Shunt> {
    match t
    case Val(_) => Ok(Shunt(st.queue + [t], st.stack))
    case Str(s) =>
      if IsTerm(s) then
        match Term(s)
        case Err(e) => Err(e)
        case Ok(u) => Ok(Shunt(st.queue + [u], st.stack))
      else if IsOperatorText(s) then
        if s != "(" && s != ")" then
          match PopOps(st, s)
          case Err(e) => Err(e)
          case Ok(p) => Ok(Shunt(p.queue, p.stack + [s]))
        else if s == "(" then Ok(Shunt(st.queue, st.stack + [s]))
        else if |st.stack| == 0 then Err(MismatchedParenthesis)
        else PopToOpen(st)
      else Err(ErrorAt(s))
  }

  /** The state after the tokens `ts`, or the first error. */
  function Scan(ts: seq<Token>): Result<Shunt> {
    if ts == [] then Ok(Shunt([], []))
    else
      match Scan(ts[..|ts| - 1])
      case Err(e) => Err(e)
      case Ok(st) => Consume(st, ts[|ts| - 1])
  }

  /** The final loop: move every stack entry to the queue, top first; a
      parenthesis left on the stack is an error. */
  function Flush(st: Shunt): Result<seq<Token>>
    decreases |st.stack|
  {
    var s := st.stack;
    if |s| == 0 then Ok(st.queue)
    else if s[|s| - 1] == "(" || s[|s| - 1] == ")" then Err(MismatchedParenthesis)
    else Flush(Shunt(st.queue + [Str(s[|s| - 1])], s[..|s| - 1]))
  }

  /** The postfix queue of `ts`. */
  function Postfix(ts: seq<Token>): Result<seq<Token>> {
    match Scan(ts)
    case Err(e) => Err(e)
    case Ok(st) => Flush(st)
  }

  /** `q` and `s` are the state `st` once the stack entries above `s` have
      moved to the queue, top first. */
  predicate Moved(st: Shunt, q: seq<Token>, s: seq<string>) {
    |s| <= |st.stack| && s == st.stack[..|s|] && q == st.queue + TopFirst(st.stack[|s|..])
  }

  /** No entry of `s` is `(`. */
  predicate NoOpen(s: seq<string>) {
    forall k :: 0 <= k < |s| ==> s[k] != "("
  }

  /** No entry of `s` is a parenthesis. */
  predicate NoParen(s: seq<string>) {
    forall k :: 0 <= k < |s| ==> s[k] != "(" && s[k] != ")"
  }

  /** Where the popping loop before pushing `op` stops. */
  predicate Halts(s: seq<string>, op: string) {
    s == [] || s[|s| - 1] == "(" || Binds(s[|s| - 1], op) == Ok(false)
  }

  /** Every entry of `s` is an operator that leaves before `op` is pushed. */
  predicate AllBind(s: seq<string>, op: string) {
    forall k :: 0 <= k < |s| ==> s[k] != "(" && Binds(s[k], op) == Ok(true)
  }

  /** Where the popping loop before pushing `op` fails: the entry `s[j]`,
      reached because every entry above it binds, is no `(` and its
      precedence lookup, or that of `op`, fails. */
  predicate FailsAt(s: seq<string>, op: string, j: int) {
    0 <= j < |s| && AllBind(s[j + 1..], op) && s[j] != "(" && Binds(s[j], op).Err?
  }

  /** The popping loop before pushing `op` fails at some entry of `s`. */
  predicate FailsSomewhere(s: seq<string>, op: string) {
    exists j :: 0 <= j < |s| && FailsAt(s, op, j)
  }

  lemma AllBindStep(s: seq<string>, j: nat, op: string)
    requires j < |s| && AllBind(s[..|s| - 1][j..], op)
    requires s[|s| - 1] != "(" && Binds(s[|s| - 1], op) == Ok(true)
    ensures AllBind(s[j..], op)
  {
    assert s[j..] == s[..|s| - 1][j..] + [s[|s| - 1]];
  }

  lemma MovedNothing(st: Shunt)
    ensures Moved(st, st.queue, st.stack)
  {
    assert st.stack[|st.stack|..] == [];
  }

  /** Moving the top first and then the entries above `s` is moving the
      entries above `s`. */
  lemma MovedStep(q0: seq<Token>, s0: seq<string>, q: seq<Token>, s: seq<string>)
    requires s0 != [] && Moved(Shunt(q0 + [Str(s0[|s0| - 1])], s0[..|s0| - 1]), q, s)
    ensures Moved(Shunt(q0, s0), q, s)
  {
    assert s == s0[..|s|];
    TopFirstStep(s0, |s|);
  }

  /** The popping loop before a push moves the top entries to the queue,
      top first; each of them binds to `op` and none is `(`.  It stops at
      an empty stack, at `(`, or at an entry that does not bind. */
  lemma {:induction false} PopOpsMoves(st: Shunt, op: string)
    ensures PopOps(st, op).Ok? ==> Moved(st, PopOps(st, op).value.queue, PopOps(st, op).value.stack)
    ensures PopOps(st, op).Ok? ==> AllBind(st.stack[|PopOps(st, op).value.stack|..], op)
    ensures PopOps(st, op).Ok? ==> Halts(PopOps(st, op).value.stack, op)
    decreases |st.stack|
  {
    var s := st.stack;
    if |s| > 0 && s[|s| - 1] != "(" && Binds(s[|s| - 1], op) == Ok(true) {
      var st' := Shunt(st.queue + [Str(s[|s| - 1])], s[..|s| - 1]);
      PopOpsMoves(st', op);
      var r := PopOps(st', op);
      if r.Ok? {
        MovedStep(st.queue, s, r.value.queue, r.value.stack);
        AllBindStep(s, |r.value.stack|, op);
      }
    } else {
      MovedNothing(st);
    }
  }

  /** The popping loop before a push fails exactly when it reaches an entry
      whose precedence lookup, or that of `op`, fails, and the error names
      the text missing from the table. */
  lemma {:induction false} PopOpsFails(st: Shunt, op: string)
    ensures PopOps(st, op).Err? <==> FailsSomewhere(st.stack, op)
    ensures PopOps(st, op).Err? ==>
      PopOps(st, op).error == UnknownOperator(op)
      || exists k :: 0 <= k < |st.stack| && PopOps(st, op).error == UnknownOperator(st.stack[k])
    decreases |st.stack|
  {
    var s := st.stack;
    if |s| == 0 {
    } else if s[|s| - 1] == "(" {
      assert forall j :: !FailsAt(s, op, j);
    } else if Binds(s[|s| - 1], op).Err? {
      assert s[|s|..] == [];
      assert FailsAt(s, op, |s| - 1);
      if OpOf(s[|s| - 1]).None? {
        assert PopOps(st, op).error == UnknownOperator(s[|s| - 1]);
      }
    } else if Binds(s[|s| - 1], op) == Ok(false) {
      assert forall j :: !FailsAt(s, op, j);
    } else {
      var s' := s[..|s| - 1];
      PopOpsFails(Shunt(st.queue + [Str(s[|s| - 1])], s'), op);
      FailsShift(s, op);
    }
  }

  /** Below a top that binds, the loop fails at the same entries as it
      does on the stack without that top. */
  lemma FailsShift(s: seq<string>, op: string)
    requires |s| > 0 && s[|s| - 1] != "(" && Binds(s[|s| - 1], op) == Ok(true)
    ensures FailsSomewhere(s, op) <==> FailsSomewhere(s[..|s| - 1], op)
  {
    var s' := s[..|s| - 1];
    forall j | 0 <= j < |s| - 1
      ensures FailsAt(s, op, j) <==> FailsAt(s', op, j)
    {
      assert s[j + 1..] == s'[j + 1..] + [s[|s| - 1]];
      assert s[j] == s'[j];
    }
    assert !FailsAt(s, op, |s| - 1);
  }

  /** The loop after `)` moves the entries above the topmost `(` to the
      queue, top first, and drops that `(`. */
  lemma {:induction false} PopToOpenMoves(st: Shunt)
    ensures PopToOpen(st).Ok? ==>
      Moved(st, PopToOpen(st).value.queue, PopToOpen(st).value.stack + ["("])
      && NoOpen(st.stack[|PopToOpen(st).value.stack| + 1..])
    decreases |st.stack|
  {
    var s := st.stack;
    if |s| > 0 {
      if s[|s| - 1] == "(" {
        assert s[..|s| - 1] + ["("] == s;
        MovedNothing(st);
      } else {
        var st' := Shunt(st.queue + [Str(s[|s| - 1])], s[..|s| - 1]);
        PopToOpenMoves(st');
        var r := PopToOpen(st');
        if r.Ok? {
          MovedStep(st.queue, s, r.value.queue, r.value.stack + ["("]);
          var j := |r.value.stack|;
          assert s[j + 1..] == s[..|s| - 1][j + 1..] + [s[|s| - 1]];
        }
      }
    }
  }

  /** The loop after `)` fails, reading an empty stack, exactly when the
      stack holds no `(`. */
  lemma {:induction false} PopToOpenFails(st: Shunt)
    ensures PopToOpen(st).Err? <==> NoOpen(st.stack)
    ensures PopToOpen(st).Err? ==> PopToOpen(st).error == StackUnderflow
    decreases |st.stack|
  {
    var s := st.stack;
    if |s| > 0 && s[|s| - 1] != "(" {
      PopToOpenFails(Shunt(st.queue + [Str(s[|s| - 1])], s[..|s| - 1]));
    }
  }

  /** The final loop moves the whole stack to the queue, top first, and
      fails exactly when a parenthesis is left on it. */
  lemma {:induction false} FlushMoves(st: Shunt)
    ensures Flush(st).Ok? <==> NoParen(st.stack)
    ensures Flush(st).Err? ==> Flush(st).error == MismatchedParenthesis
    ensures Flush(st).Ok? ==> Moved(st, Flush(st).value, [])
    decreases |st.stack|
  {
    var s := st.stack;
    if s == [] {
      MovedNothing(st);
    } else if s[|s| - 1] != "(" && s[|s| - 1] != ")" {
      var st' := Shunt(st.queue + [Str(s[|s| - 1])], s[..|s| - 1]);
      FlushMoves(st');
      if Flush(st').Ok? {
        MovedStep(st.queue, s, Flush(st').value, []);
      }
    }
  }

  /** Once the scan has failed on a prefix it fails the same way on the
      whole list. */
  lemma {:induction false} ScanKeepsError(ts: seq<Token>, k: nat)
    requires k <= |ts| && Scan(ts[..k]).Err?
    ensures Scan(ts) == Scan(ts[..k])
    decreases |ts| - k
  {
    if k < |ts| {
      assert ts[..k + 1][..k] == ts[..k];
      ScanKeepsError(ts, k + 1);
    } else {
      assert ts[..k] == ts;
    }
  }

  /** `construct_postfix_queue`. */
  method ConstructPostfixQueue(tokens: seq<Token>) returns (r: Result<seq<Token>>)
    ensures r == Postfix(tokens)
  {
    var queue: seq<Token> := [];
    var stack: seq<string> := [];
    var k := 0;
    while k < |tokens|
      invariant 0 <= k <= |tokens|
      invariant Scan(tokens[..k]) == Ok(Shunt(queue, stack))
    {
      var t := tokens[k];
      assert tokens[..k + 1][..k] == tokens[..k];
      var next: Result<Shunt>;
      match t {
        case Val(_) =>
          next := Ok(Shunt(queue + [t], stack));
        case Str(s) =>
          if IsTerm(s) {
            var u := Term(s);
            if u.Err? {
              next := Err(u.error);
            } else {
              next := Ok(Shunt(queue + [u.value], stack));
            }
          } else if IsOperatorText(s) {
            if s != "(" && s != ")" {
              next := PopOperators(Shunt(queue, stack), s);
              if next.Ok? {
                next := Ok(Shunt(next.value.queue, next.value.stack + [s]));
              }
            } else if s == "(" {
              next := Ok(Shunt(queue, stack + [s]));
            } else if |stack| == 0 {
              next := Err(MismatchedParenthesis);
            } else {
              next := PopToOpenParen(Shunt(queue, stack));
            }
          } else {
            next := Err(ErrorAt(s));
          }
      }
      assert next == Scan(tokens[..k + 1]);
      if next.Err? {
        ScanKeepsError(tokens, k + 1);
        return Err(next.error);
      }
      queue, stack := next.value.queue, next.value.stack;
      k := k + 1;
    }
    assert tokens[..k] == tokens;
    while |stack| > 0
      invariant Flush(Shunt(queue, stack)) == Postfix(tokens)
    {
      var top := stack[|stack| - 1];
      if top == "(" || top == ")" {
        return Err(MismatchedParenthesis);
      }
      queue, stack := queue + [Str(top)], stack[..|stack| - 1];
    }
    return Ok(queue);
  }

  /** The popping loop before an operator is pushed. */
  method PopOperators(st: Shunt, op: string) returns (r: Result<Shunt>)
    ensures r == PopOps(st, op)
  {
    var queue, stack := st.queue, st.stack;
    while |stack| > 0 && stack[|stack| - 1] != "("
      invariant PopOps(Shunt(queue, stack), op) == PopOps(st, op)
    {
      var top := stack[|stack| - 1];
      var b := Binds(top, op);
      if b.Err? {
        return Err(b.error);
      }
      if !b.value {
        break;
      }
      queue, stack := queue + [Str(top)], stack[..|stack| - 1];
    }
    return Ok(Shunt(queue, stack));
  }

  /** The popping loop after `)`. */
  method PopToOpenParen(st: Shunt) returns (r: Result<Shunt>)
    ensures r == PopToOpen(st)
  {
    var queue, stack := st.queue, st.stack;
    while true
      invariant PopToOpen(Shunt(queue, stack)) == PopToOpen(st)
      decreases |stack|
    {
      if |stack| == 0 {
        return Err(StackUnderflow);
      }
      var top := stack[|stack| - 1];
      if top == "(" {
        return Ok(Shunt(queue, stack[..|stack| - 1]));
      }
      queue, stack := queue + [Str(top)], stack[..|stack| - 1];
    }
  }

  // ---------------------------------------------------------------------
  // Operands keep their order; parentheses never reach the queue
  // ---------------------------------------------------------------------

  /** A queue or list entry that is an operand: a value or a term. */
  predicate IsOperand(t: Token) {
    t.Val? || IsTerm(t.s)
  }

  /** What the scan puts in the queue for an operand. */
  function Emit(t: Token): (u: Token)
    requires IsOperand(t)
    ensures IsOperand(u)
  {
    if t.Str? && Term(t.s).Ok? then Term(t.s).value else t
  }

  /** The operands of a queue, in order. */
  function Operands(q: seq<Token>): seq<Token> {
    if q == [] then []
    else Operands(q[..|q| - 1]) + (if IsOperand(q[|q| - 1]) then [q[|q| - 1]] else [])
  }

  /** The operands of a token list, as the scan emits them, in order. */
  function Emitted(ts: seq<Token>): seq<Token> {
    if ts == [] then []
    else Emitted(ts[..|ts| - 1]) + (if IsOperand(ts[|ts| - 1]) then [Emit(ts[|ts| - 1])] else [])
  }

  predicate NoParens(q: seq<Token>) {
    forall k :: 0 <= k < |q| ==> q[k] != Str("(") && q[k] != Str(")")
  }

  /** Stack entries are `(` or operator texts that are not terms. */
  predicate StackEntries(s: seq<string>) {
    forall k :: 0 <= k < |s| ==> s[k] == "(" || (!IsTerm(s[k]) && s[k] != ")")
  }

  predicate Tidy(st: Shunt) {
    NoParens(st.queue) && StackEntries(st.stack)
  }

  /** Moving the stack top, which is not `(`, to the queue adds no operand
      and no parenthesis. */
  lemma MoveTop(st: Shunt)
    requires Tidy(st) && |st.stack| > 0 && st.stack[|st.stack| - 1] != "("
    ensures var s := st.stack;
      var q' := st.queue + [Str(s[|s| - 1])];
      Tidy(Shunt(q', s[..|s| - 1])) && Operands(q') == Operands(st.queue)
  {
    var s := st.stack;
    var q' := st.queue + [Str(s[|s| - 1])];
    assert q'[..|q'| - 1] == st.queue;
  }

  lemma {:induction false} PopOpsTidy(st: Shunt, op: string)
    requires Tidy(st) && PopOps(st, op).Ok?
    ensures Tidy(PopOps(st, op).value) && Operands(PopOps(st, op).value.queue) == Operands(st.queue)
    decreases |st.stack|
  {
    var s := st.stack;
    if |s| > 0 && s[|s| - 1] != "(" && Binds(s[|s| - 1], op) == Ok(true) {
      MoveTop(st);
      PopOpsTidy(Shunt(st.queue + [Str(s[|s| - 1])], s[..|s| - 1]), op);
    }
  }

  lemma {:induction false} PopToOpenTidy(st: Shunt)
    requires Tidy(st) && PopToOpen(st).Ok?
    ensures Tidy(PopToOpen(st).value) && Operands(PopToOpen(st).value.queue) == Operands(st.queue)
    decreases |st.stack|
  {
    var s := st.stack;
    if s[|s| - 1] != "(" {
      MoveTop(st);
      PopToOpenTidy(Shunt(st.queue + [Str(s[|s| - 1])], s[..|s| - 1]));
    }
  }

  lemma {:induction false} FlushTidy(st: Shunt)
    requires Tidy(st) && Flush(st).Ok?
    ensures NoParens(Flush(st).value) && Operands(Flush(st).value) == Operands(st.queue)
    decreases |st.stack|
  {
    var s := st.stack;
    if |s| > 0 {
      MoveTop(st);
      FlushTidy(Shunt(st.queue + [Str(s[|s| - 1])], s[..|s| - 1]));
    }
  }

  lemma ConsumeTidy(st: Shunt, t: Token)
    requires Tidy(st) && Consume(st, t).Ok?
    ensures Tidy(Consume(st, t).value)
    ensures Operands(Consume(st, t).value.queue)
      == Operands(st.queue) + (if IsOperand(t) then [Emit(t)] else [])
  {
    var q := st.queue;
    if IsOperand(t) {
      var q' := q + [Emit(t)];
      assert q'[..|q'| - 1] == q;
    } else {
      var s := t.s;
      if s != "(" && s != ")" {
        PopOpsTidy(st, s);
      } else if s == ")" {
        PopToOpenTidy(st);
      }
    }
  }

  lemma {:induction false} ScanTidy(ts: seq<Token>)
    requires Scan(ts).Ok?
    ensures Tidy(Scan(ts).value) && Operands(Scan(ts).value.queue) == Emitted(ts)
  {
    if ts != [] {
      ScanTidy(ts[..|ts| - 1]);
      ConsumeTidy(Scan(ts[..|ts| - 1]).value, ts[|ts| - 1]);
    }
  }

  /** The operands reach the queue in their input order, and no
      parenthesis reaches it. */
  lemma OperandsInOrder(ts: seq<Token>)
    requires Postfix(ts).Ok?
    ensures Operands(Postfix(ts).value) == Emitted(ts)
    ensures NoParens(Postfix(ts).value)
  {
    ScanTidy(ts);
    FlushTidy(Scan(ts).value);
  }

  /** A `(` still on the stack when the tokens run out is a mismatched
      parenthesis, whatever lies above it. */
  lemma {:induction false} OpenLeftOver(st: Shunt, k: nat)
    requires k < |st.stack| && st.stack[k] == "("
    ensures Flush(st) == Err(MismatchedParenthesis)
    decreases |st.stack|
  {
    var s := st.stack;
    if s[|s| - 1] != "(" && s[|s| - 1] != ")" {
      assert s[..|s| - 1][k] == "(";
      OpenLeftOver(Shunt(st.queue + [Str(s[|s| - 1])], s[..|s| - 1]), k);
    }
  }

  /** So a token list whose scan leaves a `(` on the stack has no postfix
      form. */
  lemma UnclosedParenthesis(ts: seq<Token>, k: nat)
    requires Scan(ts).Ok? && k < |Scan(ts).value.stack| && Scan(ts).value.stack[k] == "("
    ensures Postfix(ts) == Err(MismatchedParenthesis)
  {
    OpenLeftOver(Scan(ts).value, k);
  }

  // ---------------------------------------------------------------------
  // Examples
  // ---------------------------------------------------------------------

  /** Scanning one more token. */
  lemma ScanSnoc(ts: seq<Token>, t: Token)
    requires Scan(ts).Ok?
    ensures Scan(ts + [t]) == Consume(Scan(ts).value, t)
  {
    assert (ts + [t])[..|ts|] == ts;
  }

  /** A numeral goes straight to the queue, as its text. */
  lemma ScanNumeral(ts: seq<Token>, q: seq<Token>, s: seq<string>, c: string)
    requires Scan(ts) == Ok(Shunt(q, s)) && RealNum(c)
    ensures Scan(ts + [Str(c)]) == Ok(Shunt(q + [Str(c)], s))
  {
    ScanSnoc(ts, Str(c));
  }

  /** A single digit is a numeral. */
  lemma DigitNumeral(c: char)
    requires IsDigit(c)
    ensures RealNum([c])
  {
    var d := [c];
    assert d[1..] == [] && Dots(d) == 0 && DigitsAndDots(d);
  }

  /** An operator that pops nothing is pushed. */
  lemma ScanPush(ts: seq<Token>, q: seq<Token>, s: seq<string>, o: Op)
    requires Scan(ts) == Ok(Shunt(q, s)) && PopOps(Shunt(q, s), Symbol(o)) == Ok(Shunt(q, s))
    ensures Scan(ts + [Str(Symbol(o))]) == Ok(Shunt(q, s + [Symbol(o)]))
  {
    ScanSnoc(ts, Str(Symbol(o)));
    SymbolIsOperatorText(o);
  }

  /** An operator arriving on an empty stack pops nothing. */
  lemma NothingToPop(q: seq<Token>, op: string)
    ensures PopOps(Shunt(q, []), op) == Ok(Shunt(q, []))
  {
  }

  /** An operator arriving on a top that binds more loosely, or equally
      when the operator groups to the right, pops nothing. */
  lemma TopStays(q: seq<Token>, s: seq<string>, t: Op, o: Op)
    requires Prec(t) < Prec(o) || (Prec(t) == Prec(o) && !LeftAssoc(o))
    ensures PopOps(Shunt(q, s + [Symbol(t)]), Symbol(o)) == Ok(Shunt(q, s + [Symbol(t)]))
  {
    OpOfSymbol(t);
    OpOfSymbol(o);
    SymbolIsOperatorText(t);
  }

  /** Flushing a two-entry stack: the top first. */
  lemma FlushTwo(q: seq<Token>, s: seq<string>)
    requires |s| == 2 && s[0] != "(" && s[0] != ")" && s[1] != "(" && s[1] != ")"
    ensures Flush(Shunt(q, s)) == Ok(q + [Str(s[1]), Str(s[0])])
  {
    var q1 := q + [Str(s[1])];
    assert s[..1] == [s[0]] && [s[0]][..0] == [];
    assert Flush(Shunt(q, s)) == Flush(Shunt(q1, [s[0]]));
    assert Flush(Shunt(q1, [s[0]])) == Flush(Shunt(q1 + [Str(s[0])], []));
    assert q1 + [Str(s[0])] == q + [Str(s[1]), Str(s[0])];
  }

  /** The scan of `a t b`: both numbers are emitted, `t` waits on the
      stack. */
  lemma ScanFirstThree(a: string, b: string, t: Op)
    requires RealNum(a) && RealNum(b)
    ensures Scan([Str(a), Str(Symbol(t)), Str(b)]) == Ok(Shunt([Str(a), Str(b)], [Symbol(t)]))
  {
    var t1 := [] + [Str(a)];
    var t2 := t1 + [Str(Symbol(t))];
    ScanNumeral([], [], [], a);
    NothingToPop(t1, Symbol(t));
    ScanPush(t1, t1, [], t);
    ScanNumeral(t2, t1, [] + [Symbol(t)], b);
    FirstLists(a, b, t);
  }

  lemma FirstLists(a: string, b: string, t: Op)
    ensures [] + [Str(a)] + [Str(Symbol(t))] + [Str(b)] == [Str(a), Str(Symbol(t)), Str(b)]
    ensures [] + [Str(a)] + [Str(b)] == [Str(a), Str(b)]
    ensures [] + [Symbol(t)] == [Symbol(t)]
  {
  }

  /** The scan of `a t b o c`, with `o` pushed on `t`. */
  lemma ScanStays(a: string, b: string, c: string, t: Op, o: Op)
    requires RealNum(a) && RealNum(b) && RealNum(c)
    requires Prec(t) < Prec(o) || (Prec(t) == Prec(o) && !LeftAssoc(o))
    ensures Scan([Str(a), Str(Symbol(t)), Str(b), Str(Symbol(o)), Str(c)])
      == Ok(Shunt([Str(a), Str(b), Str(c)], [Symbol(t), Symbol(o)]))
  {
    var t3 := [Str(a), Str(Symbol(t)), Str(b)];
    var q3 := [Str(a), Str(b)];
    ScanFirstThree(a, b, t);
    TopStays(q3, [], t, o);
    assert [] + [Symbol(t)] == [Symbol(t)];
    ScanPush(t3, q3, [Symbol(t)], o);
    ScanNumeral(t3 + [Str(Symbol(o))], q3, [Symbol(t)] + [Symbol(o)], c);
    StaysLists(a, b, c, t, o);
  }

  lemma StaysLists(a: string, b: string, c: string, t: Op, o: Op)
    ensures [Str(a), Str(Symbol(t)), Str(b)] + [Str(Symbol(o))] + [Str(c)]
      == [Str(a), Str(Symbol(t)), Str(b), Str(Symbol(o)), Str(c)]
    ensures [Str(a), Str(b)] + [Str(c)] == [Str(a), Str(b), Str(c)]
    ensures [Symbol(t)] + [Symbol(o)] == [Symbol(t), Symbol(o)]
  {
  }

  /** `a t b o c`, for any numerals `a`, `b`, `c` and `o` binding tighter
      than `t` or grouping to the right at the same level, gives `a b c o t`: `o` is pushed on `t`
      and both leave at the end, the top first. */
  lemma OperatorStays(a: string, b: string, c: string, t: Op, o: Op)
    requires RealNum(a) && RealNum(b) && RealNum(c)
    requires Prec(t) < Prec(o) || (Prec(t) == Prec(o) && !LeftAssoc(o))
    ensures Postfix([Str(a), Str(Symbol(t)), Str(b), Str(Symbol(o)), Str(c)])
      == Ok([Str(a), Str(b), Str(c), Str(Symbol(o)), Str(Symbol(t))])
  {
    var q, s := [Str(a), Str(b), Str(c)], [Symbol(t), Symbol(o)];
    ScanStays(a, b, c, t, o);
    SymbolIsOperatorText(t);
    SymbolIsOperatorText(o);
    FlushTwo(q, s);
    assert q + [Str(s[1]), Str(s[0])] == [Str(a), Str(b), Str(c), Str(Symbol(o)), Str(Symbol(t))];
  }

  /** `2 + 3 * 4` gives `2 3 4 * +`: `*` stays on `+`, which leaves last. */
  lemma TighterOperatorStays()
    ensures Postfix([Str("2"), Str("+"), Str("3"), Str("*"), Str("4")])
      == Ok([Str("2"), Str("3"), Str("4"), Str("*"), Str("+")])
  {
    DigitNumeral('2');
    DigitNumeral('3');
    DigitNumeral('4');
    OperatorStays("2", "3", "4", Add, Mul);
  }

  /** `2 ^ 3 ^ 2` gives `2 3 2 ^ ^`: the second `^` stays on the first. */
  lemma PowerGroupsRight()
    ensures Postfix([Str("2"), Str("^"), Str("3"), Str("^"), Str("2")])
      == Ok([Str("2"), Str("3"), Str("2"), Str("^"), Str("^")])
  {
    DigitNumeral('2');
    DigitNumeral('3');
    OperatorStays("2", "3", "2", Pow, Pow);
  }
}
