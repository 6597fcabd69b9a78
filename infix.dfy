/** Conventional reading of a flat infix expression: `+ -` bind loosest and
    group to the left, `* / %` bind tighter and group to the left, `^` binds
    tightest and groups to the right.  An expression `v0 o0 v1 o1 ... vm` is
    held as its operands `vs` and its operators `os`.  The reading is defined
    by splitting at the loosest operator, independently of the postfix
    pipeline that is proved to agree with it. */
module Infix {
  import opened Tokens

  /** One more operand than operators. */
  predicate Shape(vs: seq<real>, os: seq<Op>) {
    |vs| == |os| + 1
  }

  /** Every operator binds at least as tightly as level `l`. */
  predicate AtLeast(os: seq<Op>, l: nat) {
    forall j :: 0 <= j < |os| ==> l <= Prec(os[j])
  }

  /** Position of the last operator of precedence `l`, or -1. */
  function LastAt(os: seq<Op>, l: nat): (k: int)
    ensures k == -1 || (0 <= k < |os| && Prec(os[k]) == l)
    ensures forall j :: k < j < |os| ==> Prec(os[j]) != l
  {
    if os == [] then -1
    else if Prec(os[|os| - 1]) == l then |os| - 1
    else LastAt(os[..|os| - 1], l)
  }

  /** Position of the first operator of precedence `l`, or -1. */
  function FirstAt(os: seq<Op>, l: nat): (k: int)
    ensures k == -1 || (0 <= k < |os| && Prec(os[k]) == l)
    ensures forall j :: 0 <= j < |os| && (k < 0 || j < k) ==> Prec(os[j]) != l
  {
    if os == [] then -1
    else if Prec(os[0]) == l then 0
    else var k := FirstAt(os[1..], l); if k < 0 then -1 else k + 1
  }

  /** The value of an expression whose operators all bind at least as
      tightly as level `l`: split at the last operator of level `l` (at the
      first one for the right-grouping level 3), or read it one level
      tighter when there is none; level 4 is a lone operand. */
  function Eval(n: Numerics, l: nat, vs: seq<real>, os: seq<Op>): real
    requires Shape(vs, os) && 1 <= l <= 4 && AtLeast(os, l)
    decreases |os|, 4 - l
  {
    if l == 4 then
      vs[0]
    else if l == 3 then
      var k := FirstAt(os, 3);
      if k < 0 then Eval(n, 4, vs, os)
      else BinOp(n, os[k], Eval(n, 4, vs[..k + 1], os[..k]), Eval(n, 3, vs[k + 1..], os[k + 1..]))
    else
      var k := LastAt(os, l);
      if k < 0 then Eval(n, l + 1, vs, os)
      else BinOp(n, os[k], Eval(n, l, vs[..k + 1], os[..k]), Eval(n, l + 1, vs[k + 1..], os[k + 1..]))
  }

  /** The conventional value of an expression. */
  function Value(n: Numerics, vs: seq<real>, os: seq<Op>): real
    requires Shape(vs, os)
  {
    Eval(n, 1, vs, os)
  }

  // ---------------------------------------------------------------------
  // Applying one operator
  // ---------------------------------------------------------------------

  /** The operands once operator `i` has been applied to its two operands. */
  function Folded(n: Numerics, vs: seq<real>, os: seq<Op>, i: nat): (r: seq<real>)
    requires Shape(vs, os) && i < |os|
    ensures |r| == |vs| - 1
  {
    vs[..i] + [BinOp(n, os[i], vs[i], vs[i + 1])] + vs[i + 2..]
  }

  /** The operators once operator `i` has been applied. */
  function Without(os: seq<Op>, i: nat): (r: seq<Op>)
    requires i < |os|
    ensures |r| == |os| - 1
  {
    os[..i] + os[i + 1..]
  }

  /** Operator `i` is the next one the conventional reading applies: every
      operator to its left binds more loosely (or equally, when `i` groups to
      the right), and the operator to its right does not take its right
      operand (it binds more loosely, or equally and groups to the left). */
  predicate Redex(os: seq<Op>, i: nat) {
    && i < |os|
    && (forall j :: 0 <= j < i ==>
          Prec(os[j]) < Prec(os[i]) || (Prec(os[j]) == Prec(os[i]) && !LeftAssoc(os[i])))
    && (i + 1 < |os| ==>
          Prec(os[i + 1]) < Prec(os[i]) || (Prec(os[i + 1]) == Prec(os[i]) && LeftAssoc(os[i + 1])))
  }

  // ---------------------------------------------------------------------
  // Helper facts
  // ---------------------------------------------------------------------

  lemma {:induction false} EvalSingle(n: Numerics, l: nat, v: real)
    requires 1 <= l <= 4
    ensures AtLeast([], l) && Eval(n, l, [v], []) == v
    decreases 4 - l
  {
    if l < 4 {
      EvalSingle(n, l + 1, v);
    }
  }

  /** A position satisfying the characterisation of `LastAt` is `LastAt`. */
  lemma LastAtIs(os: seq<Op>, l: nat, k: int)
    requires k == -1 || (0 <= k < |os| && Prec(os[k]) == l)
    requires forall j :: k < j < |os| ==> Prec(os[j]) != l
    ensures LastAt(os, l) == k
  {
    var m := LastAt(os, l);
    assert k >= 0 ==> Prec(os[k]) == l;
    assert m >= 0 ==> Prec(os[m]) == l;
  }

  /** `Eval` at a left-grouping level splits at the last operator of that level. */
  lemma EvalAtLast(n: Numerics, l: nat, vs: seq<real>, os: seq<Op>, k: int)
    requires Shape(vs, os) && 1 <= l < 3 && AtLeast(os, l) && k == LastAt(os, l)
    ensures k < 0 ==> AtLeast(os, l + 1) && Eval(n, l, vs, os) == Eval(n, l + 1, vs, os)
    ensures k >= 0 ==> AtLeast(os[..k], l) && AtLeast(os[k + 1..], l + 1)
    ensures k >= 0 ==>
      Eval(n, l, vs, os)
        == BinOp(n, os[k], Eval(n, l, vs[..k + 1], os[..k]), Eval(n, l + 1, vs[k + 1..], os[k + 1..]))
  {
  }

  /** `Eval` at level 3 splits at the first operator. */
  lemma EvalAtFirst(n: Numerics, vs: seq<real>, os: seq<Op>)
    requires Shape(vs, os) && AtLeast(os, 3) && |os| > 0
    ensures FirstAt(os, 3) == 0 && AtLeast(os[1..], 3) && AtLeast([], 4)
    ensures Eval(n, 3, vs, os) == BinOp(n, os[0], vs[0], Eval(n, 3, vs[1..], os[1..]))
  {
    assert vs[..1] == [vs[0]] && os[..0] == [];
  }

  /** A redex stays a redex in a prefix that keeps it. */
  lemma RedexBefore(os: seq<Op>, i: nat, m: nat)
    requires Redex(os, i) && i < m <= |os|
    ensures Redex(os[..m], i)
  {
    var ps := os[..m];
    assert forall j :: 0 <= j < m ==> ps[j] == os[j];
  }

  /** A redex stays a redex in a suffix that keeps it. */
  lemma RedexAfter(os: seq<Op>, i: nat, m: nat)
    requires Redex(os, i) && m <= i
    ensures Redex(os[m..], i - m)
  {
    var ts := os[m..];
    assert forall j :: 0 <= j < |ts| ==> ts[j] == os[m + j];
  }

  /** Removing an operator keeps the others, in order. */
  lemma WithoutAt(os: seq<Op>, i: nat, l: nat)
    requires i < |os| && AtLeast(os, l)
    ensures AtLeast(Without(os, i), l)
    ensures forall j :: 0 <= j < i ==> Without(os, i)[j] == os[j]
    ensures forall j :: i <= j < |os| - 1 ==> Without(os, i)[j] == os[j + 1]
  {
  }

  /** Slices of a folded expression left of the folded operator. */
  lemma FoldedLeft(n: Numerics, vs: seq<real>, os: seq<Op>, i: nat, k: nat)
    requires Shape(vs, os) && i < k < |os|
    ensures Folded(n, vs, os, i)[..k] == Folded(n, vs[..k + 1], os[..k], i)
    ensures Without(os, i)[..k - 1] == Without(os[..k], i)
    ensures Folded(n, vs, os, i)[k..] == vs[k + 1..]
    ensures Without(os, i)[k..] == os[k + 1..]
  {
  }

  /** Slices of a folded expression right of the folded operator. */
  lemma FoldedRight(n: Numerics, vs: seq<real>, os: seq<Op>, i: nat, k: nat)
    requires Shape(vs, os) && k < i < |os|
    ensures Folded(n, vs, os, i)[..k + 1] == vs[..k + 1]
    ensures Without(os, i)[..k] == os[..k]
    ensures Folded(n, vs, os, i)[k + 1..] == Folded(n, vs[k + 1..], os[k + 1..], i - (k + 1))
    ensures Without(os, i)[k + 1..] == Without(os[k + 1..], i - (k + 1))
  {
  }

  // ---------------------------------------------------------------------
  // Applying the next operator preserves the value
  // ---------------------------------------------------------------------

  /** Applying the next operator of the conventional reading leaves the
      value of the expression unchanged. */
  lemma {:induction false} Reduce(n: Numerics, l: nat, vs: seq<real>, os: seq<Op>, i: nat)
    requires Shape(vs, os) && 1 <= l <= 3 && AtLeast(os, l) && Redex(os, i)
    ensures AtLeast(Without(os, i), l)
    ensures Eval(n, l, vs, os) == Eval(n, l, Folded(n, vs, os, i), Without(os, i))
    decreases |os|, 4 - l, 4
  {
    if l == 3 {
      ReduceRight(n, vs, os, i);
    } else {
      var k := LastAt(os, l);
      if k > i {
        ReduceLeftOf(n, l, vs, os, i);
      } else if k < 0 {
        EvalAtLast(n, l, vs, os, k);
        Reduce(n, l + 1, vs, os, i);
        LastAtIs(Without(os, i), l, -1);
        EvalAtLast(n, l, Folded(n, vs, os, i), Without(os, i), -1);
      } else if k < i {
        ReduceRightOf(n, l, vs, os, i);
      } else {
        ReduceAlone(n, l, vs, os, i);
      }
    }
  }

  /** Applying the next operator of the conventional reading leaves the
      conventional value unchanged. */
  lemma ReduceValue(n: Numerics, vs: seq<real>, os: seq<Op>, i: nat)
    requires Shape(vs, os) && Redex(os, i)
    ensures Value(n, vs, os) == Value(n, Folded(n, vs, os, i), Without(os, i))
  {
    assert AtLeast(os, 1);
    Reduce(n, 1, vs, os, i);
  }

  /** Level 3: every operator is `^` and the reading goes right to left, so
      the redex is the last operator. */
  lemma {:induction false} ReduceRight(n: Numerics, vs: seq<real>, os: seq<Op>, i: nat)
    requires Shape(vs, os) && AtLeast(os, 3) && Redex(os, i)
    ensures AtLeast(Without(os, i), 3)
    ensures Eval(n, 3, vs, os) == Eval(n, 3, Folded(n, vs, os, i), Without(os, i))
    decreases |os|, 1, 3
  {
    PowRedexIsLast(os, i);
    WithoutAt(os, i, 3);
    if i == 0 {
      ReducePowAlone(n, vs, os);
    } else {
      ReducePowDeep(n, vs, os, i);
    }
  }

  /** At level 3 a redex has no operator to its right. */
  lemma PowRedexIsLast(os: seq<Op>, i: nat)
    requires AtLeast(os, 3) && Redex(os, i)
    ensures i + 1 == |os|
  {
    var j := if i + 1 < |os| then i + 1 else i;
    assert Prec(os[j]) == 3 && os[j] == Pow;
  }

  /** `v ^ w` folds to its value. */
  lemma ReducePowAlone(n: Numerics, vs: seq<real>, os: seq<Op>)
    requires Shape(vs, os) && |os| == 1 && AtLeast(os, 3)
    ensures Eval(n, 3, vs, os) == Eval(n, 3, Folded(n, vs, os, 0), Without(os, 0))
  {
    EvalAtFirst(n, vs, os);
    assert vs[1..] == [vs[1]] && os[1..] == [];
    EvalSingle(n, 3, vs[1]);
    var r := Folded(n, vs, os, 0);
    assert r == [r[0]] && Without(os, 0) == [];
    EvalSingle(n, 3, r[0]);
  }

  /** A `^` redex after the first operator is reduced in the right operand
      of the first `^`. */
  lemma {:induction false} ReducePowDeep(n: Numerics, vs: seq<real>, os: seq<Op>, i: nat)
    requires Shape(vs, os) && 0 < i && AtLeast(os, 3) && Redex(os, i) && AtLeast(Without(os, i), 3)
    ensures Eval(n, 3, vs, os) == Eval(n, 3, Folded(n, vs, os, i), Without(os, i))
    decreases |os|, 1, 2
  {
    SplitPowDeep(n, vs, os, i);
    ReduceSuffix(n, 3, vs, os, i, 0);
  }

  /** Both the expression and its folded form split at the first `^`. */
  lemma SplitPowDeep(n: Numerics, vs: seq<real>, os: seq<Op>, i: nat)
    requires Shape(vs, os) && 0 < i && AtLeast(os, 3) && Redex(os, i) && AtLeast(Without(os, i), 3)
    ensures AtLeast(os[0 + 1..], 3) && AtLeast(Without(os, i)[0 + 1..], 3)
    ensures Eval(n, 3, vs, os) == BinOp(n, os[0], vs[0], Eval(n, 3, vs[0 + 1..], os[0 + 1..]))
    ensures Eval(n, 3, Folded(n, vs, os, i), Without(os, i))
      == BinOp(n, os[0], vs[0], Eval(n, 3, Folded(n, vs, os, i)[0 + 1..], Without(os, i)[0 + 1..]))
  {
    var r := Folded(n, vs, os, i);
    var ws := Without(os, i);
    EvalAtFirst(n, vs, os);
    assert ws[0] == os[0] && r[0] == vs[0];
    EvalAtFirst(n, r, ws);
    assert vs[0 + 1..] == vs[1..] && os[0 + 1..] == os[1..] && r[0 + 1..] == r[1..] && ws[0 + 1..] == ws[1..];
  }

  /** The last operator of level `l` lies right of the redex; the redex is
      reduced inside the left part of the split. */
  lemma {:induction false} ReduceLeftOf(n: Numerics, l: nat, vs: seq<real>, os: seq<Op>, i: nat)
    requires Shape(vs, os) && 1 <= l < 3 && AtLeast(os, l) && Redex(os, i)
    requires LastAt(os, l) > i
    ensures AtLeast(Without(os, i), l)
    ensures Eval(n, l, vs, os) == Eval(n, l, Folded(n, vs, os, i), Without(os, i))
    decreases |os|, 4 - l, 2
  {
    var k := LastAt(os, l);
    var k1 := k - 1;
    var r := Folded(n, vs, os, i);
    var ws := Without(os, i);
    WithoutAt(os, i, l);
    LastAtIs(ws, l, k1);
    EvalAtLast(n, l, vs, os, k);
    EvalAtLast(n, l, r, ws, k1);
    assert k1 + 1 == k;
    FoldedLeft(n, vs, os, i, k);
    ReducePrefix(n, l, vs, os, i, k);
  }

  /** The last operator of level `l` lies left of the redex, which then binds
      more tightly than `l`; the redex is reduced inside the right part. */
  lemma {:induction false} ReduceRightOf(n: Numerics, l: nat, vs: seq<real>, os: seq<Op>, i: nat)
    requires Shape(vs, os) && 1 <= l < 3 && AtLeast(os, l) && Redex(os, i)
    requires 0 <= LastAt(os, l) < i
    ensures AtLeast(Without(os, i), l)
    ensures Eval(n, l, vs, os) == Eval(n, l, Folded(n, vs, os, i), Without(os, i))
    decreases |os|, 4 - l, 2
  {
    var k := LastAt(os, l);
    SplitRightOf(n, l, vs, os, i, k);
    ReduceSuffix(n, l + 1, vs, os, i, k);
  }

  /** Both the expression and its folded form split at the same operator
      `k`, left of the redex, with the same left part. */
  lemma SplitRightOf(n: Numerics, l: nat, vs: seq<real>, os: seq<Op>, i: nat, k: nat)
    requires Shape(vs, os) && 1 <= l < 3 && AtLeast(os, l) && Redex(os, i)
    requires k == LastAt(os, l) && k < i
    ensures AtLeast(Without(os, i), l) && AtLeast(os[..k], l) && AtLeast(os[k + 1..], l + 1)
    ensures Eval(n, l, vs, os)
      == BinOp(n, os[k], Eval(n, l, vs[..k + 1], os[..k]), Eval(n, l + 1, vs[k + 1..], os[k + 1..]))
    ensures AtLeast(Without(os, i)[k + 1..], l + 1)
    ensures Eval(n, l, Folded(n, vs, os, i), Without(os, i))
      == BinOp(n, os[k], Eval(n, l, vs[..k + 1], os[..k]),
               Eval(n, l + 1, Folded(n, vs, os, i)[k + 1..], Without(os, i)[k + 1..]))
  {
    var r := Folded(n, vs, os, i);
    var ws := Without(os, i);
    WithoutAt(os, i, l);
    LastAtIs(ws, l, k);
    EvalAtLast(n, l, vs, os, k);
    EvalAtLast(n, l, r, ws, k);
    FoldedRight(n, vs, os, i, k);
  }

  /** Reducing a redex inside the suffix after operator `k` of the expression. */
  lemma {:induction false} ReduceSuffix(n: Numerics, l: nat, vs: seq<real>, os: seq<Op>, i: nat, k: nat)
    requires Shape(vs, os) && 2 <= l <= 3 && k < i && Redex(os, i) && AtLeast(os[k + 1..], l)
    ensures AtLeast(Without(os, i)[k + 1..], l)
    ensures Eval(n, l, Folded(n, vs, os, i)[k + 1..], Without(os, i)[k + 1..]) == Eval(n, l, vs[k + 1..], os[k + 1..])
    decreases |os|, 4 - l, 1
  {
    FoldedRight(n, vs, os, i, k);
    RedexAfter(os, i, k + 1);
    Reduce(n, l, vs[k + 1..], os[k + 1..], i - (k + 1));
  }

  /** Reducing a redex inside a prefix of the expression. */
  lemma {:induction false} ReducePrefix(n: Numerics, l: nat, vs: seq<real>, os: seq<Op>, i: nat, k: nat)
    requires Shape(vs, os) && 1 <= l <= 3 && i < k < |os| && Redex(os, i) && AtLeast(os[..k], l)
    ensures AtLeast(Without(os, i)[..k - 1], l)
    ensures Eval(n, l, Folded(n, vs, os, i)[..k], Without(os, i)[..k - 1]) == Eval(n, l, vs[..k + 1], os[..k])
    decreases |os|, 4 - l, 1
  {
    FoldedLeft(n, vs, os, i, k);
    RedexBefore(os, i, k);
    Reduce(n, l, vs[..k + 1], os[..k], i);
  }

  /** The redex is the last operator of level `l`; then it is the only
      operator and the expression is `v o w`. */
  lemma {:induction false} ReduceAlone(n: Numerics, l: nat, vs: seq<real>, os: seq<Op>, i: nat)
    requires Shape(vs, os) && 1 <= l < 3 && AtLeast(os, l) && Redex(os, i)
    requires LastAt(os, l) == i
    ensures AtLeast(Without(os, i), l)
    ensures Eval(n, l, vs, os) == Eval(n, l, Folded(n, vs, os, i), Without(os, i))
    decreases |os|, 4 - l, 2
  {
    var r := Folded(n, vs, os, i);
    assert Prec(os[0]) >= l;
    assert i == 0;
    var j := if i + 1 < |os| then i + 1 else i;
    assert Prec(os[j]) >= l;
    assert |os| == 1;
    assert vs[..1] == [vs[0]] && vs[1..] == [vs[1]] && r == [r[0]];
    EvalSingle(n, l, vs[0]);
    EvalSingle(n, l + 1, vs[1]);
    EvalSingle(n, l, r[0]);
  }
}
