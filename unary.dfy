/** `_parse_unary`: decides for every `-` of the token list whether it is a
    subtraction or a sign, looking at its neighbours in the list as it was
    given.  A leading `-` becomes `0 -`, a sign is folded into the number
    after it, and a `-` at the end or between unexpected neighbours is an
    error. */
module Unary {
  import opened Tokens

  const Minus: Token := Str("-")

  /** The `-` stays a subtraction: a number on its left, and a number or an
      operator on its right. */
  predicate KeepsMinus(prev: Token, next: Token) {
    IsNumeric(prev) && (IsNumeric(next) || IsOperatorToken(next))
  }

  /** The `-` is a sign: a `(` on its left, or an operator on its left and
      a number on its right. */
  predicate FlipsSign(prev: Token, next: Token) {
    prev == Str("(") || (IsOperatorToken(prev) && IsNumeric(next))
  }

  /** The resolved list from position `i` on. */
  function UnaryFrom(ts: seq<Token>, i: nat): Result<seq<Token>>
    decreases |ts| - i
  {
    if i >= |ts| then Ok([])
    else if ts[i] != Minus then Prepend([ts[i]], UnaryFrom(ts, i + 1))
    else if i + 1 >= |ts| then Err(TrailingMinus)
    else if i == 0 then Prepend([Str("0"), Minus], UnaryFrom(ts, i + 1))
    else if KeepsMinus(ts[i - 1], ts[i + 1]) then Prepend([Minus], UnaryFrom(ts, i + 1))
    else if FlipsSign(ts[i - 1], ts[i + 1]) then
      match NumberOf(ts[i + 1])
      case None => Err(NotANumber(ts[i + 1]))
      case Some(v) => Prepend([Val(-v)], UnaryFrom(ts, i + 2))
    else Err(UnsupportedOperation(ts[i - 1], ts[i], ts[i + 1]))
  }

  /** The resolved list. */
  function Resolve(ts: seq<Token>): Result<seq<Token>> {
    UnaryFrom(ts, 0)
  }

  /** `_parse_unary`. */
  method ParseUnary(list: seq<Token>) returns (r: Result<seq<Token>>)
    ensures r == Resolve(list)
  {
    var res: seq<Token> := [];
    var i := 0;
    PrependNothing(Resolve(list));
    while i < |list|
      invariant i <= |list|
      invariant Prepend(res, UnaryFrom(list, i)) == Resolve(list)
      decreases |list| - i
    {
      if list[i] == Minus {
        if i + 1 < |list| {
          if i == 0 {
            PrependTwice(res, [Str("0"), Minus], UnaryFrom(list, i + 1));
            res := res + [Str("0"), Minus];
            i := i + 1;
          } else if KeepsMinus(list[i - 1], list[i + 1]) {
            PrependTwice(res, [list[i]], UnaryFrom(list, i + 1));
            res := res + [list[i]];
            i := i + 1;
          } else if FlipsSign(list[i - 1], list[i + 1]) {
            i := i + 1;
            var v := NumberOf(list[i]);
            if v.None? {
              return Err(NotANumber(list[i]));
            }
            PrependTwice(res, [Val(-v.value)], UnaryFrom(list, i + 1));
            res := res + [Val(-v.value)];
            i := i + 1;
          } else {
            return Err(UnsupportedOperation(list[i - 1], list[i], list[i + 1]));
          }
        } else {
          return Err(TrailingMinus);
        }
      } else {
        PrependTwice(res, [list[i]], UnaryFrom(list, i + 1));
        res := res + [list[i]];
        i := i + 1;
      }
    }
    assert res + [] == res;
    return Ok(res);
  }

  // ---------------------------------------------------------------------
  // Properties
  // ---------------------------------------------------------------------

  /** Every `-` that survives is a subtraction with a number on its left and
      something on its right. */
  predicate AllBinary(r: seq<Token>) {
    forall k :: 0 <= k < |r| && r[k] == Minus ==> 0 < k < |r| - 1 && IsNumeric(r[k - 1])
  }

  /** The state of the loop before position `i`, with `res` built so far:
      its `-` are binary except perhaps a last one, which then has a token
      after it still to come; and a number just before `i` ends `res` as a
      number. */
  predicate Built(ts: seq<Token>, i: nat, res: seq<Token>) {
    && (forall k :: 0 <= k < |res| && res[k] == Minus ==> 0 < k && IsNumeric(res[k - 1]))
    && (|res| > 0 && res[|res| - 1] == Minus ==> i < |ts|)
    && (0 < i <= |ts| && IsNumeric(ts[i - 1]) ==> |res| > 0 && IsNumeric(res[|res| - 1]))
  }

  lemma MinusIsNotNumeric()
    ensures !IsNumeric(Minus) && IsNumeric(Str("0"))
  {
    assert !UnsignedNumeral("-"[1..]);
    assert UnsignedNumeral("0") by { assert DigitsAndDots("0") && Dots("0") == Dots("0"[1..]); }
  }

  lemma BuiltPlain(ts: seq<Token>, i: nat, res: seq<Token>)
    requires i < |ts| && ts[i] != Minus && Built(ts, i, res)
    ensures Built(ts, i + 1, res + [ts[i]])
    ensures UnaryFrom(ts, i) == Prepend([ts[i]], UnaryFrom(ts, i + 1))
  {
  }

  lemma BuiltLeading(ts: seq<Token>, res: seq<Token>)
    requires 1 < |ts| && ts[0] == Minus && Built(ts, 0, res)
    ensures Built(ts, 1, res + [Str("0"), Minus])
    ensures UnaryFrom(ts, 0) == Prepend([Str("0"), Minus], UnaryFrom(ts, 1))
  {
    MinusIsNotNumeric();
    var r := res + [Str("0"), Minus];
    assert r[|r| - 2] == Str("0");
  }

  lemma BuiltKeep(ts: seq<Token>, i: nat, res: seq<Token>)
    requires 0 < i && i + 1 < |ts| && ts[i] == Minus && Built(ts, i, res)
    requires KeepsMinus(ts[i - 1], ts[i + 1])
    ensures Built(ts, i + 1, res + [Minus])
    ensures UnaryFrom(ts, i) == Prepend([Minus], UnaryFrom(ts, i + 1))
  {
    MinusIsNotNumeric();
    var r := res + [Minus];
    assert r[|r| - 2] == res[|res| - 1];
  }

  lemma BuiltFlip(ts: seq<Token>, i: nat, res: seq<Token>)
    requires 0 < i && i + 1 < |ts| && ts[i] == Minus && Built(ts, i, res)
    requires !KeepsMinus(ts[i - 1], ts[i + 1]) && UnaryFrom(ts, i).Ok?
    ensures NumberOf(ts[i + 1]).Some?
    ensures Built(ts, i + 2, res + [Val(-NumberOf(ts[i + 1]).value)])
    ensures UnaryFrom(ts, i) == Prepend([Val(-NumberOf(ts[i + 1]).value)], UnaryFrom(ts, i + 2))
  {
  }

  /** From a loop state onwards, every `-` of the result is binary. */
  lemma {:induction false} BuiltToEnd(ts: seq<Token>, i: nat, res: seq<Token>)
    requires Built(ts, i, res) && UnaryFrom(ts, i).Ok?
    ensures AllBinary(res + UnaryFrom(ts, i).value)
    decreases |ts| - i
  {
    if i >= |ts| {
      assert res + [] == res;
    } else {
      var piece: seq<Token>, j: nat;
      if ts[i] != Minus {
        piece, j := [ts[i]], i + 1;
        BuiltPlain(ts, i, res);
      } else if i == 0 {
        piece, j := [Str("0"), Minus], i + 1;
        BuiltLeading(ts, res);
      } else if KeepsMinus(ts[i - 1], ts[i + 1]) {
        piece, j := [Minus], i + 1;
        BuiltKeep(ts, i, res);
      } else {
        piece, j := [Val(-NumberOf(ts[i + 1]).value)], i + 2;
        BuiltFlip(ts, i, res);
      }
      BuiltToEnd(ts, j, res + piece);
      AllBinaryShift(res, piece, UnaryFrom(ts, j).value);
    }
  }

  lemma AllBinaryShift(res: seq<Token>, piece: seq<Token>, rest: seq<Token>)
    requires AllBinary((res + piece) + rest)
    ensures AllBinary(res + (piece + rest))
  {
    assert (res + piece) + rest == res + (piece + rest);
  }

  /** After resolution every `-` is a subtraction: never first, never last,
      and always after a number. */
  lemma ResolvedMinusIsBinary(ts: seq<Token>)
    requires Resolve(ts).Ok?
    ensures AllBinary(Resolve(ts).value)
  {
    BuiltToEnd(ts, 0, []);
    assert [] + Resolve(ts).value == Resolve(ts).value;
  }

  /** A `-` at the end of the list is an error. */
  lemma {:induction false} TrailingMinusFails(ts: seq<Token>, i: nat)
    requires i < |ts| && ts[|ts| - 1] == Minus
    ensures UnaryFrom(ts, i).Err?
    decreases |ts| - i
  {
    if i + 1 == |ts| {
    } else if ts[i] == Minus && i > 0 && !KeepsMinus(ts[i - 1], ts[i + 1]) {
      if i + 2 < |ts| {
        TrailingMinusFails(ts, i + 2);
      } else {
        MinusIsNotNumeric();
      }
    } else {
      TrailingMinusFails(ts, i + 1);
    }
  }

  /** A list without `-` is left as it is. */
  lemma {:induction false} NoMinusUnchanged(ts: seq<Token>, i: nat)
    requires i <= |ts|
    requires forall k :: i <= k < |ts| ==> ts[k] != Minus
    ensures UnaryFrom(ts, i) == Ok(ts[i..])
    decreases |ts| - i
  {
    if i < |ts| {
      NoMinusUnchanged(ts, i + 1);
      assert [ts[i]] + ts[i + 1..] == ts[i..];
    }
  }

  /** A list of numbers and operators in turn, starting and ending with a
      number, is left as it is: every `-` in it is a subtraction. */
  lemma {:induction false} InfixUnchanged(ts: seq<Token>, i: nat)
    requires i <= |ts| && |ts| % 2 == 1
    requires forall k :: 0 <= k < |ts| && k % 2 == 0 ==> IsNumeric(ts[k]) && ts[k] != Minus
    requires forall k :: 0 <= k < |ts| && k % 2 == 1 ==> ts[k].Str? && IsOperatorText(ts[k].s)
    ensures UnaryFrom(ts, i) == Ok(ts[i..])
    decreases |ts| - i
  {
    if i < |ts| {
      if ts[i] == Minus {
        assert i % 2 == 1 && 0 < i && i + 1 < |ts|;
        assert KeepsMinus(ts[i - 1], ts[i + 1]);
      }
      InfixUnchanged(ts, i + 1);
      assert [ts[i]] + ts[i + 1..] == ts[i..];
    }
  }

  /** A sign is folded into the number after it before any operator is
      read, so it binds tighter than `^`: `1 + -3 ^ 2` becomes
      `1 + (-3) ^ 2`. */
  lemma SignBeforePower()
    ensures Resolve([Str("1"), Str("+"), Minus, Str("3"), Str("^"), Str("2")])
      == Ok([Str("1"), Str("+"), Val(-3.0), Str("^"), Str("2")])
  {
    var ts := [Str("1"), Str("+"), Minus, Str("3"), Str("^"), Str("2")];
    DigitsParse("3");
    assert Decimal("3") == 3;
    MinusIsNotNumeric();
    assert !KeepsMinus(ts[1], ts[3]);
    assert UnsignedNumeral("3") by { assert DigitsAndDots("3") && Dots("3") == Dots("3"[1..]); }
    assert IsOperatorToken(ts[1]) && IsNumeric(ts[3]);
    NoMinusUnchanged(ts, 4);
    assert ts[4..] == [Str("^"), Str("2")];
    assert UnaryFrom(ts, 2) == Prepend([Val(-3.0)], UnaryFrom(ts, 4));
    assert UnaryFrom(ts, 1) == Prepend([Str("+")], UnaryFrom(ts, 2));
    assert UnaryFrom(ts, 0) == Prepend([Str("1")], UnaryFrom(ts, 1));
    assert [Str("1")] + ([Str("+")] + ([Val(-3.0)] + [Str("^"), Str("2")]))
      == [Str("1"), Str("+"), Val(-3.0), Str("^"), Str("2")];
  }
}
