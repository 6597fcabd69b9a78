/** The Shunting Yard conversion followed by postfix evaluation computes the
    conventional value of a flat infix expression: `+ -` loosest and grouping
    to the left, `* / %` tighter and grouping to the left, `^` tightest and
    grouping to the right.

    The proof follows the two stacks together.  After each operand has been
    consumed, the operand stack `V` the queue evaluates to and the operator
    stack `ss`, followed by the operands `rv` and operators `ro` still to
    come, read as the infix expression `V[0] ss[0] V[1] ... ss[m-1] V[m] ro[0]
    rv[0] ...`, whose conventional value never changes: moving the stack top
    to the queue applies the operator the conventional reading applies next. */
module Agreement {
  import opened Tokens
  import opened Infix
  import opened Shunting
  import opened PostfixEval

  /** The infix token list `a0 o0 a1 o1 ... am`. */
  function Interleave(a: seq<Token>, os: seq<Op>): (ts: seq<Token>)
    requires |a| == |os| + 1
    ensures |ts| == 2 * |os| + 1
  {
    if os == [] then [a[0]]
    else Interleave(a[..|a| - 1], os[..|os| - 1]) + [Str(Symbol(os[|os| - 1])), a[|a| - 1]]
  }

  /** The values of numeric tokens. */
  function Values(a: seq<Token>): (vs: seq<real>)
    requires forall k :: 0 <= k < |a| ==> IsNumeric(a[k])
    ensures |vs| == |a|
    ensures forall k :: 0 <= k < |a| ==> NumberOf(a[k]) == Some(vs[k])
  {
    if a == [] then []
    else
      RealNumberParses(a[|a| - 1]);
      Values(a[..|a| - 1]) + [NumberOf(a[|a| - 1]).value]
  }

  lemma RealNumberParses(t: Token)
    requires IsNumeric(t)
    ensures NumberOf(t).Some?
  {
    if t.Str? {
      RealNumParses(t.s);
    }
  }

  /** The operator stack as the texts it holds. */
  function Syms(ss: seq<Op>): (r: seq<string>)
    ensures |r| == |ss|
    ensures forall k :: 0 <= k < |ss| ==> r[k] == Symbol(ss[k])
  {
    seq(|ss|, k requires 0 <= k < |ss| => Symbol(ss[k]))
  }

  /** `t` leaves the stack before `o` is pushed. */
  predicate Pops(t: Op, o: Op) {
    Prec(t) > Prec(o) || (Prec(t) == Prec(o) && LeftAssoc(o))
  }

  /** The operator stack binds ever more tightly towards its top, except
      that `^` may sit on `^`. */
  predicate Chain(ss: seq<Op>) {
    forall p, r :: 0 <= p < r < |ss| ==> Prec(ss[p]) < Prec(ss[r]) || (ss[p] == Pow && ss[r] == Pow)
  }

  /** The operand stack `V` and operator stack `ss`, followed by the
      operands `rv` and operators `ro` still to come, have the conventional
      value `g`. */
  predicate Residual(n: Numerics, V: seq<real>, ss: seq<Op>, rv: seq<real>, ro: seq<Op>, g: real) {
    && |V| == |ss| + 1
    && Chain(ss)
    && |rv| == |ro|
    && Value(n, V + rv, ss + ro) == g
  }

  /** The operand stack once operator `t` has taken the two topmost values. */
  function FoldTop(n: Numerics, V: seq<real>, t: Op): (r: seq<real>)
    requires |V| >= 2
    ensures |r| == |V| - 1
  {
    V[..|V| - 2] + [BinOp(n, t, V[|V| - 2], V[|V| - 1])]
  }

  // ---------------------------------------------------------------------
  // One pop
  // ---------------------------------------------------------------------

  /** The stack top is the next operator of the conventional reading when
      the operator after it does not take it as its left operand. */
  lemma TopIsRedex(ss: seq<Op>, ro: seq<Op>)
    requires |ss| > 0 && Chain(ss)
    requires ro == [] || Pops(ss[|ss| - 1], ro[0])
    ensures Redex(ss + ro, |ss| - 1)
  {
    var os := ss + ro;
    var i := |ss| - 1;
    assert forall j :: 0 <= j < i ==> os[j] == ss[j];
    assert os[i] == ss[i];
    assert i + 1 < |os| ==> os[i + 1] == ro[0];
  }

  /** Moving operator `t` to the queue applies it on the operand stack. */
  lemma RunPop(n: Numerics, q: seq<Token>, V: seq<real>, t: Op)
    requires Run(n, q) == Ok(V) && |V| >= 2
    ensures Run(n, q + [Str(Symbol(t))]) == Ok(FoldTop(n, V, t))
  {
    SymbolIsOperatorText(t);
    OpOfSymbol(t);
    assert (q + [Str(Symbol(t))])[..|q|] == q;
  }

  /** Moving a numeric token to the queue pushes its value. */
  lemma RunPush(n: Numerics, q: seq<Token>, V: seq<real>, a: Token, v: real)
    requires Run(n, q) == Ok(V) && NumberOf(a) == Some(v)
    ensures Run(n, q + [a]) == Ok(V + [v])
  {
    assert (q + [a])[..|q|] == q;
  }

  /** Applying the stack top to the two topmost values keeps the value of
      the residual expression. */
  lemma PopKeepsValue(n: Numerics, V: seq<real>, ss: seq<Op>, rv: seq<real>, ro: seq<Op>)
    requires |V| == |ss| + 1 && |ss| > 0 && Chain(ss) && |rv| == |ro|
    requires ro == [] || Pops(ss[|ss| - 1], ro[0])
    ensures Value(n, V + rv, ss + ro)
      == Value(n, FoldTop(n, V, ss[|ss| - 1]) + rv, ss[..|ss| - 1] + ro)
  {
    var i := |ss| - 1;
    var os := ss + ro;
    var vs := V + rv;
    TopIsRedex(ss, ro);
    ReduceValue(n, vs, os, i);
    assert vs[..i] == V[..i] && vs[i + 2..] == rv;
    assert Folded(n, vs, os, i) == FoldTop(n, V, ss[i]) + rv;
    assert Without(os, i) == ss[..i] + ro;
  }

  /** Moving a stack top that the next operator does not take to the queue
      keeps the residual value. */
  lemma PopOne(n: Numerics, V: seq<real>, ss: seq<Op>, rv: seq<real>, ro: seq<Op>, g: real)
    requires Residual(n, V, ss, rv, ro, g) && |ss| > 0
    requires ro == [] || Pops(ss[|ss| - 1], ro[0])
    ensures Residual(n, FoldTop(n, V, ss[|ss| - 1]), ss[..|ss| - 1], rv, ro, g)
  {
    PopKeepsValue(n, V, ss, rv, ro);
  }

  // ---------------------------------------------------------------------
  // An operator and the operand after it
  // ---------------------------------------------------------------------

  /** The popping loop moves a top that binds to the queue. */
  lemma PopOpsPops(q: seq<Token>, ss: seq<Op>, o: Op)
    requires |ss| > 0 && Pops(ss[|ss| - 1], o)
    ensures PopOps(Shunt(q, Syms(ss)), Symbol(o))
      == PopOps(Shunt(q + [Str(Symbol(ss[|ss| - 1]))], Syms(ss[..|ss| - 1])), Symbol(o))
  {
    var t := ss[|ss| - 1];
    OpOfSymbol(o);
    OpOfSymbol(t);
    SymbolIsOperatorText(t);
    assert Syms(ss)[|ss| - 1] == Symbol(t);
    assert Syms(ss)[..|ss| - 1] == Syms(ss[..|ss| - 1]);
  }

  /** The popping loop stops at an empty stack or a top that does not bind. */
  lemma PopOpsStops(q: seq<Token>, ss: seq<Op>, o: Op)
    requires |ss| == 0 || !Pops(ss[|ss| - 1], o)
    ensures PopOps(Shunt(q, Syms(ss)), Symbol(o)) == Ok(Shunt(q, Syms(ss)))
  {
    if |ss| > 0 {
      var t := ss[|ss| - 1];
      OpOfSymbol(o);
      OpOfSymbol(t);
      SymbolIsOperatorText(t);
      assert Syms(ss)[|ss| - 1] == Symbol(t);
    }
  }

  /** The popping loop before operator `o` empties the stack down to the
      first entry `o` does not pop, keeping the residual value, and `o` can
      then be pushed. */
  lemma {:induction false} PopAll(n: Numerics, q: seq<Token>, V: seq<real>, ss: seq<Op>, rv: seq<real>, o: Op, ro: seq<Op>, g: real)
    returns (q': seq<Token>, V': seq<real>, ss': seq<Op>)
    requires Run(n, q) == Ok(V) && Residual(n, V, ss, rv, [o] + ro, g)
    ensures PopOps(Shunt(q, Syms(ss)), Symbol(o)) == Ok(Shunt(q', Syms(ss')))
    ensures Run(n, q') == Ok(V') && Residual(n, V', ss', rv, [o] + ro, g) && Chain(ss' + [o])
    decreases |ss|
  {
    if ss != [] && Pops(ss[|ss| - 1], o) {
      var t := ss[|ss| - 1];
      PopOpsPops(q, ss, o);
      PopOne(n, V, ss, rv, [o] + ro, g);
      RunPop(n, q, V, t);
      q', V', ss' := PopAll(n, q + [Str(Symbol(t))], FoldTop(n, V, t), ss[..|ss| - 1], rv, o, ro, g);
    } else {
      PopOpsStops(q, ss, o);
      q', V', ss' := q, V, ss;
      if ss == [] {
        assert ss' + [o] == [o];
      } else {
        PushKeepsChain(ss, o);
      }
    }
  }

  /** An operator that does not pop the top may be pushed on it. */
  lemma PushKeepsChain(ss: seq<Op>, o: Op)
    requires |ss| > 0 && Chain(ss) && !Pops(ss[|ss| - 1], o)
    ensures Chain(ss + [o])
  {
    var s := ss + [o];
    var t := ss[|ss| - 1];
    assert Prec(t) == 3 ==> t == Pow;
    forall p, r | 0 <= p < r < |s|
      ensures Prec(s[p]) < Prec(s[r]) || (s[p] == Pow && s[r] == Pow)
    {
      if r == |ss| && p < |ss| - 1 {
        assert s[p] == ss[p];
      }
    }
  }

  /** Consuming an operator text runs the popping loop and pushes it. */
  lemma ConsumeOperator(st: Shunt, o: Op)
    requires PopOps(st, Symbol(o)).Ok?
    ensures Consume(st, Str(Symbol(o)))
      == Ok(Shunt(PopOps(st, Symbol(o)).value.queue, PopOps(st, Symbol(o)).value.stack + [Symbol(o)]))
  {
    SymbolIsOperatorText(o);
  }

  /** Consuming a numeric token appends it to the queue. */
  lemma ConsumeOperand(st: Shunt, a: Token)
    requires IsNumeric(a)
    ensures Consume(st, a) == Ok(Shunt(st.queue + [a], st.stack))
  {
  }

  /** Consuming an operator whose popping loop ends in `q1`, `s1`, and then
      a numeric token. */
  lemma ConsumeBoth(q: seq<Token>, ss: seq<Op>, q1: seq<Token>, s1: seq<Op>, o: Op, a: Token)
    requires PopOps(Shunt(q, Syms(ss)), Symbol(o)) == Ok(Shunt(q1, Syms(s1)))
    requires IsNumeric(a)
    ensures var st := Consume(Shunt(q, Syms(ss)), Str(Symbol(o)));
      st.Ok? && Consume(st.value, a) == Ok(Shunt(q1 + [a], Syms(s1 + [o])))
  {
    ConsumeOperator(Shunt(q, Syms(ss)), o);
    assert Syms(s1) + [Symbol(o)] == Syms(s1 + [o]);
    ConsumeOperand(Shunt(q1, Syms(s1 + [o])), a);
  }

  /** Pushing operator `o` and then the value after it leaves the residual
      expression as it was. */
  lemma ShiftResidual(n: Numerics, V: seq<real>, ss: seq<Op>, rv: seq<real>, o: Op, ro: seq<Op>, g: real)
    requires Residual(n, V, ss, rv, [o] + ro, g) && Chain(ss + [o])
    ensures Residual(n, V + [rv[0]], ss + [o], rv[1..], ro, g)
  {
    assert V + rv == (V + [rv[0]]) + rv[1..];
    assert ss + ([o] + ro) == (ss + [o]) + ro;
  }

  /** Consuming an operator and then an operand keeps the residual value,
      one operator and one operand further. */
  lemma Advance(n: Numerics, q: seq<Token>, V: seq<real>, ss: seq<Op>, rv: seq<real>, ro: seq<Op>, g: real, a: Token)
    returns (q': seq<Token>, V': seq<real>, ss': seq<Op>)
    requires Run(n, q) == Ok(V) && Residual(n, V, ss, rv, ro, g) && |ro| > 0
    requires IsNumeric(a) && NumberOf(a) == Some(rv[0])
    ensures var st := Consume(Shunt(q, Syms(ss)), Str(Symbol(ro[0])));
      st.Ok? && Consume(st.value, a) == Ok(Shunt(q', Syms(ss')))
    ensures Run(n, q') == Ok(V') && Residual(n, V', ss', rv[1..], ro[1..], g)
  {
    var o := ro[0];
    assert ro == [o] + ro[1..];
    var q1, V1, s1 := PopAll(n, q, V, ss, rv, o, ro[1..], g);
    ConsumeBoth(q, ss, q1, s1, o, a);
    RunPush(n, q1, V1, a, rv[0]);
    ShiftResidual(n, V1, s1, rv, o, ro[1..], g);
    q', V', ss' := q1 + [a], V1 + [rv[0]], s1 + [o];
  }

  // ---------------------------------------------------------------------
  // The whole expression
  // ---------------------------------------------------------------------

  /** The token list one operator and one operand longer. */
  lemma InterleaveStep(a: seq<Token>, os: seq<Op>, j: nat)
    requires |a| == |os| + 1 && 0 < j <= |os|
    ensures Interleave(a[..j + 1], os[..j]) == Interleave(a[..j], os[..j - 1]) + [Str(Symbol(os[j - 1])), a[j]]
  {
    assert a[..j + 1][..j] == a[..j] && os[..j][..j - 1] == os[..j - 1];
  }

  /** Scanning two more tokens. */
  lemma ScanTwo(ts: seq<Token>, x: Token, y: Token)
    requires Scan(ts).Ok? && Consume(Scan(ts).value, x).Ok?
    ensures Scan(ts + [x, y]) == Consume(Consume(Scan(ts).value, x).value, y)
  {
    var u := ts + [x, y];
    assert u[..|u| - 1] == ts + [x];
    assert (ts + [x])[..|ts|] == ts;
  }

  /** Scanning an expression up to operand `j` leaves a residual whose value
      is that of the whole expression. */
  lemma {:induction false} ScanPrefix(n: Numerics, a: seq<Token>, os: seq<Op>, j: nat)
    returns (q: seq<Token>, V: seq<real>, ss: seq<Op>)
    requires |a| == |os| + 1 && j <= |os|
    requires forall k :: 0 <= k < |a| ==> IsNumeric(a[k])
    ensures Scan(Interleave(a[..j + 1], os[..j])) == Ok(Shunt(q, Syms(ss)))
    ensures Run(n, q) == Ok(V) && Residual(n, V, ss, Values(a)[j + 1..], os[j..], Value(n, Values(a), os))
  {
    var vs := Values(a);
    if j == 0 {
      var ts := Interleave(a[..1], os[..0]);
      assert ts == [a[0]] && ts[..0] == [];
      q, V, ss := [a[0]], [vs[0]], [];
      RunPush(n, [], [], a[0], vs[0]);
      assert [] + [a[0]] == q && [] + [vs[0]] == V;
      assert V + vs[1..] == vs;
      assert [] + os[0..] == os;
    } else {
      var q0, V0, s0 := ScanPrefix(n, a, os, j - 1);
      InterleaveStep(a, os, j);
      assert vs[j..][0] == vs[j] && vs[j..][1..] == vs[j + 1..];
      assert os[j - 1..][0] == os[j - 1] && os[j - 1..][1..] == os[j..];
      q, V, ss := Advance(n, q0, V0, s0, vs[j..], os[j - 1..], Value(n, vs, os), a[j]);
      ScanTwo(Interleave(a[..j], os[..j - 1]), Str(Symbol(os[j - 1])), a[j]);
    }
  }

  /** The final loop empties the stack into the queue, which then evaluates
      to the residual value. */
  lemma {:induction false} FlushAll(n: Numerics, q: seq<Token>, V: seq<real>, ss: seq<Op>, g: real)
    requires Run(n, q) == Ok(V) && Residual(n, V, ss, [], [], g)
    ensures Flush(Shunt(q, Syms(ss))).Ok?
    ensures EvalPostfix(n, Flush(Shunt(q, Syms(ss))).value) == Ok(g)
    decreases |ss|
  {
    if ss == [] {
      assert V + [] == [V[0]] && ss + [] == [];
      EvalSingle(n, 1, V[0]);
    } else {
      var t := ss[|ss| - 1];
      SymbolIsOperatorText(t);
      PopOne(n, V, ss, [], [], g);
      RunPop(n, q, V, t);
      assert Syms(ss)[..|ss| - 1] == Syms(ss[..|ss| - 1]);
      FlushAll(n, q + [Str(Symbol(t))], FoldTop(n, V, t), ss[..|ss| - 1], g);
    }
  }

  /** Converting a flat infix expression to postfix and evaluating the queue
      gives its conventional value. */
  lemma ShuntingYardAgrees(n: Numerics, a: seq<Token>, os: seq<Op>)
    requires |a| == |os| + 1
    requires forall k :: 0 <= k < |a| ==> IsNumeric(a[k])
    ensures Postfix(Interleave(a, os)).Ok?
    ensures EvalPostfix(n, Postfix(Interleave(a, os)).value) == Ok(Value(n, Values(a), os))
  {
    var q, V, ss := ScanPrefix(n, a, os, |os|);
    assert a[..|os| + 1] == a && os[..|os|] == os;
    var vs := Values(a);
    assert vs[|os| + 1..] == [] && os[|os|..] == [];
    FlushAll(n, q, V, ss, Value(n, vs, os));
  }
}
