/** `process_equation`, and the whole pipeline on an expression without
    blocks, function calls or signs: it computes the conventional,
    precedence-based value. */
module Pipeline {
  import opened Tokens
  import opened Infix
  import opened Substitute
  import opened Unary
  import opened Agreement
  import opened Evaluator
  import opened Tokenizer

  /** `process_equation`: the empty text is refused, any other text is
      separated, split and evaluated.  The final rounding to 15 decimals is
      not part of this model. */
  function ProcessEquation(n: Numerics, equation: string): (r: Result<real>)
    ensures |equation| == 0 ==> r == Err(EmptyEquation)
    ensures |equation| > 0 ==> r == Evaluate(n, Tokenize(equation))
  {
    if |equation| == 0 then Err(EmptyEquation)
    else Evaluate(n, Tokenize(equation))
  }

  /** The text tokens `a0 o0 a1 o1 ... am`. */
  function Words(nums: seq<string>, os: seq<Op>): (ws: seq<string>)
    requires |nums| == |os| + 1
    ensures |ws| == 2 * |os| + 1
  {
    if os == [] then [nums[0]]
    else Words(nums[..|nums| - 1], os[..|os| - 1]) + [Symbol(os[|os| - 1]), nums[|nums| - 1]]
  }

  /** Operands at the even positions, operators at the odd ones. */
  lemma {:induction false} WordsAt(nums: seq<string>, os: seq<Op>)
    requires |nums| == |os| + 1
    ensures forall k :: 0 <= k < |nums| ==> Words(nums, os)[2 * k] == nums[k]
    ensures forall k :: 0 <= k < |os| ==> Words(nums, os)[2 * k + 1] == Symbol(os[k])
  {
    if os != [] {
      var ni, oi := nums[..|nums| - 1], os[..|os| - 1];
      WordsAt(ni, oi);
      var w, wi := Words(nums, os), Words(ni, oi);
      assert w == wi + [Symbol(os[|os| - 1]), nums[|nums| - 1]];
      forall k | 0 <= k < |nums|
        ensures w[2 * k] == nums[k]
      {
        if k < |ni| {
          assert w[2 * k] == wi[2 * k] && ni[k] == nums[k];
        }
      }
      forall k | 0 <= k < |os|
        ensures w[2 * k + 1] == Symbol(os[k])
      {
        if k < |oi| {
          assert w[2 * k + 1] == wi[2 * k + 1] && oi[k] == os[k];
        }
      }
    }
  }

  lemma {:induction false} LiftWords(nums: seq<string>, os: seq<Op>)
    requires |nums| == |os| + 1
    ensures Lift(Words(nums, os)) == Interleave(Lift(nums), os)
  {
    if os != [] {
      var ni, oi := nums[..|nums| - 1], os[..|os| - 1];
      LiftWords(ni, oi);
      assert Lift(nums)[..|nums| - 1] == Lift(ni);
      assert Lift(Words(nums, os)) == Lift(Words(ni, oi)) + [Str(Symbol(os[|os| - 1])), Str(nums[|nums| - 1])];
    } else {
      assert Lift(Words(nums, os)) == [Str(nums[0])];
    }
  }

  /** A text token that the scan copies and substitution leaves alone. */
  predicate Plain(w: string) {
    w != "(" && !IsFunctionName(w) && ConstantValue(w).None?
  }

  lemma NumeralIsPlain(w: string)
    requires RealNum(w)
    ensures Plain(w) && Str(w) != Minus
  {
    assert IsDigit(w[0]) || w[0] == '.' || (w[0] == '-' && |w| > 1);
  }

  lemma SymbolIsPlain(o: Op)
    ensures Plain(Symbol(o)) && IsOperatorText(Symbol(o))
  {
    SymbolIsOperatorText(o);
  }

  /** The facts about each word that the stages need. */
  lemma WordsArePlain(nums: seq<string>, os: seq<Op>)
    requires |nums| == |os| + 1
    requires forall k :: 0 <= k < |nums| ==> RealNum(nums[k])
    ensures forall k :: 0 <= k < |Words(nums, os)| ==> Plain(Words(nums, os)[k])
    ensures forall k :: 0 <= k < |Words(nums, os)| && k % 2 == 0 ==>
      IsNumeric(Str(Words(nums, os)[k])) && Str(Words(nums, os)[k]) != Minus
    ensures forall k :: 0 <= k < |Words(nums, os)| && k % 2 == 1 ==> IsOperatorText(Words(nums, os)[k])
  {
    var w := Words(nums, os);
    WordsAt(nums, os);
    forall k | 0 <= k < |w|
      ensures Plain(w[k])
      ensures k % 2 == 0 ==> IsNumeric(Str(w[k])) && Str(w[k]) != Minus
      ensures k % 2 == 1 ==> IsOperatorText(w[k])
    {
      var h := k / 2;
      if k % 2 == 0 {
        assert k == 2 * h && w[k] == nums[h];
        NumeralIsPlain(nums[h]);
      } else {
        assert k == 2 * h + 1 && w[k] == Symbol(os[h]);
        SymbolIsPlain(os[h]);
      }
    }
  }

  /** Scan, substitution and unary resolution leave such a list as it is. */
  lemma WordsPassThrough(n: Numerics, nums: seq<string>, os: seq<Op>)
    requires |nums| == |os| + 1
    requires forall k :: 0 <= k < |nums| ==> RealNum(nums[k])
    ensures FlattenFrom(n, Words(nums, os), 0) == Ok(Lift(Words(nums, os)))
    ensures Resolve(Substituted(Lift(Words(nums, os)))) == Ok(Lift(Words(nums, os)))
  {
    var w := Words(nums, os);
    var ts := Lift(w);
    WordsArePlain(nums, os);
    FlatListCopied(n, w, 0);
    assert w[0..] == w;
    SubstituteNoConstants(ts);
    InfixUnchanged(ts, 0);
    assert ts[0..] == ts;
  }

  /** An expression of numerals and operators without parentheses evaluates
      to its conventional value: `^` binds tightest and groups to the right,
      then `*`, `/` and `%`, then `+` and `-`, both groups to the left. */
  lemma FlatExpressionValue(n: Numerics, nums: seq<string>, os: seq<Op>, vs: seq<real>)
    requires |nums| == |os| + 1 && |vs| == |nums|
    requires forall k :: 0 <= k < |nums| ==> RealNum(nums[k]) && ParseFloat(nums[k]) == Some(vs[k])
    ensures Evaluate(n, Words(nums, os)) == Ok(Value(n, vs, os))
  {
    WordsPassThrough(n, nums, os);
    LiftWords(nums, os);
    var a := Lift(nums);
    forall k | 0 <= k < |a|
      ensures IsNumeric(a[k])
    {
      assert a[k] == Str(nums[k]);
    }
    ShuntingYardAgrees(n, a, os);
    assert Values(a) == vs;
  }

  /** Every word of such an expression is kept whole by the tokenizer. */
  lemma WordsAreWhole(nums: seq<string>, os: seq<Op>)
    requires |nums| == |os| + 1
    requires forall k :: 0 <= k < |nums| ==> UnsignedNumeral(nums[k])
    ensures forall i :: 0 <= i < |Words(nums, os)| ==> IsWord(Words(nums, os)[i])
  {
    var w := Words(nums, os);
    WordsAt(nums, os);
    forall i | 0 <= i < |w|
      ensures IsWord(w[i])
    {
      var h := i / 2;
      if i % 2 == 0 {
        assert i == 2 * h && w[i] == nums[h];
      } else {
        assert i == 2 * h + 1 && w[i] == Symbol(os[h]);
        OpOfSymbol(os[h]);
      }
    }
  }

  /** The text of such an expression, with one blank between each numeral
      and operator, is tokenized back into its words and evaluates to the
      conventional value. */
  lemma TextValue(n: Numerics, nums: seq<string>, os: seq<Op>, vs: seq<real>)
    requires |nums| == |os| + 1 && |vs| == |nums|
    requires forall k :: 0 <= k < |nums| ==> UnsignedNumeral(nums[k]) && ParseFloat(nums[k]) == Some(vs[k])
    ensures ProcessEquation(n, Join(Words(nums, os))) == Ok(Value(n, vs, os))
  {
    var w := Words(nums, os);
    WordsAreWhole(nums, os);
    TokenizeJoin(w);
    JoinEnds(w);
    FlatExpressionValue(n, nums, os, vs);
  }

  lemma ExampleText()
    ensures Join(Words(["2", "3", "4"], [Add, Mul])) == "2 + 3 * 4"
  {
    var nums, os := ["2", "3", "4"], [Add, Mul];
    assert Words(nums[..1], os[..0]) == ["2"];
    assert Words(nums[..2], os[..1]) == ["2", "+", "3"];
    assert Words(nums, os) == ["2", "+", "3", "*", "4"];
  }

  lemma ExampleNumerals()
    ensures forall k :: 0 <= k < 3 ==>
      UnsignedNumeral(["2", "3", "4"][k]) && ParseFloat(["2", "3", "4"][k]) == Some([2.0, 3.0, 4.0][k])
  {
    var nums := ["2", "3", "4"];
    forall k | 0 <= k < 3
      ensures UnsignedNumeral(nums[k]) && ParseFloat(nums[k]) == Some([2.0, 3.0, 4.0][k])
    {
      DigitsParse(nums[k]);
      assert Dots(nums[k]) == Dots(nums[k][1..]);
    }
  }

  /** `2 + 3 * 4` is 14. */
  lemma TextExample(n: Numerics)
    ensures ProcessEquation(n, "2 + 3 * 4") == Ok(14.0)
  {
    ExampleText();
    ExampleNumerals();
    TextValue(n, ["2", "3", "4"], [Add, Mul], [2.0, 3.0, 4.0]);
    ExampleValue(n);
  }

  lemma ExampleValue(n: Numerics)
    ensures Value(n, [2.0, 3.0, 4.0], [Add, Mul]) == 14.0
  {
  }
}
