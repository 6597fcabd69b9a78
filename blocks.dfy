/** `_handle_parenthesis`: copies the tokens of a parenthesised block, whose
    `(` has already been read, into the caller's block list, up to the
    matching `)`, and returns the index just past that `)`. */
module Blocks {
  import opened Tokens

  /** Occurrences of `x` in `s`. */
  function Count(s: seq<string>, x: string): nat {
    if s == [] then 0 else (if s[0] == x then 1 else 0) + Count(s[1..], x)
  }

  /** Opened minus closed parentheses in `s`. */
  function Depth(s: seq<string>): int {
    Count(s, "(") - Count(s, ")")
  }

  /** The index of the `)` that closes a block whose contents start at `i`,
      when `d` blocks opened since then are still open. */
  function MatchFrom(eq: seq<string>, i: nat, d: nat): (r: Option<nat>)
    ensures r.Some? ==> i <= r.value < |eq| && eq[r.value] == ")"
    decreases |eq| - i
  {
    if i >= |eq| then None
    else if eq[i] == ")" then (if d == 0 then Some(i) else MatchFrom(eq, i + 1, d - 1))
    else if eq[i] == "(" then MatchFrom(eq, i + 1, d + 1)
    else MatchFrom(eq, i + 1, d)
  }

  /** The index of the `)` closing the block that starts at `i`. */
  function Closing(eq: seq<string>, i: nat): Option<nat> {
    MatchFrom(eq, i, 0)
  }

  /** What is left of `eq` from `i` on. */
  function Rest(eq: seq<string>, i: nat): seq<string> {
    if i <= |eq| then eq[i..] else []
  }

  /** `_handle_parenthesis`: `block` is the caller's list after the call.
      On success the block's contents are appended to it and the index past
      the closing `)` is returned; when the tokens run out first, everything
      that was read is appended and the malformed-parenthesis error names
      the list. */
  method HandleParenthesis(i0: nat, equation: seq<string>, blockTokens: seq<string>)
    returns (r: Result<nat>, block: seq<string>)
    ensures r.Ok? <==> Closing(equation, i0).Some?
    ensures r.Ok? ==>
      r.value == Closing(equation, i0).value + 1 && block == blockTokens + equation[i0..r.value - 1]
    ensures r.Err? ==>
      r.error == MalformedParenthesis(block) && block == blockTokens + Rest(equation, i0)
  {
    var left, right := 1, 0;
    var i := i0;
    block := blockTokens;
    while left != right
      invariant right <= left && i0 <= i
      invariant i0 > |equation| ==> i == i0 && block == blockTokens
      invariant i0 <= |equation| ==> i <= |equation|
      invariant i0 <= |equation| && right < left ==> block == blockTokens + equation[i0..i]
      invariant right == left ==> i0 < i <= |equation| && Closing(equation, i0) == Some(i - 1)
      invariant right == left ==> block == blockTokens + equation[i0..i - 1]
      invariant right < left ==> MatchFrom(equation, i, left - right - 1) == Closing(equation, i0)
      decreases |equation| - i
    {
      if i >= |equation| {
        return Err(MalformedParenthesis(block)), block;
      }
      if equation[i] == "(" {
        left := left + 1;
        Extend(blockTokens, equation, i0, i);
        block := block + [equation[i]];
        i := i + 1;
      } else if equation[i] == ")" {
        right := right + 1;
        if right != left {
          Extend(blockTokens, equation, i0, i);
          block := block + [equation[i]];
        }
        i := i + 1;
      } else {
        Extend(blockTokens, equation, i0, i);
        block := block + [equation[i]];
        i := i + 1;
      }
    }
    return Ok(i), block;
  }

  /** One more token of the block copied. */
  lemma Extend(prefix: seq<string>, eq: seq<string>, i0: nat, i: nat)
    requires i0 <= i < |eq|
    ensures prefix + eq[i0..i] + [eq[i]] == prefix + eq[i0..i + 1]
  {
    assert eq[i0..i + 1] == eq[i0..i] + [eq[i]];
  }

  // ---------------------------------------------------------------------
  // The matching parenthesis, declaratively
  // ---------------------------------------------------------------------

  /** `j` closes a block starting at `i` with `d` blocks still open: every
      prefix of `eq[i..j]` leaves at least `-d` depth, and `eq[j]` is a `)`
      that brings the depth to `-d - 1`. */
  predicate Closes(eq: seq<string>, i: nat, d: nat, j: nat) {
    && i <= j < |eq| && eq[j] == ")"
    && d + Depth(eq[i..j]) == 0
    && forall k :: i <= k <= j ==> d + Depth(eq[i..k]) >= 0
  }

  lemma DepthOne(x: string)
    ensures Depth([x]) == if x == "(" then 1 else if x == ")" then -1 else 0
  {
    assert [x][1..] == [];
    assert Count([x], "(") == (if x == "(" then 1 else 0) + Count([], "(");
    assert Count([x], ")") == (if x == ")" then 1 else 0) + Count([], ")");
  }

  lemma DepthStep(eq: seq<string>, i: nat, k: nat)
    requires i < k <= |eq|
    ensures Depth(eq[i..k]) == Depth([eq[i]]) + Depth(eq[i + 1..k])
  {
    assert eq[i..k][1..] == eq[i + 1..k];
    DepthOne(eq[i]);
  }

  lemma CloseShift(eq: seq<string>, i: nat, d: nat, d': nat, j: nat)
    requires i < |eq| && d' == d + Depth([eq[i]])
    requires !(eq[i] == ")" && d == 0)
    ensures Closes(eq, i, d, j) <==> Closes(eq, i + 1, d', j)
  {
    DepthOne(eq[i]);
    forall k | i < k <= |eq|
      ensures Depth(eq[i..k]) == Depth([eq[i]]) + Depth(eq[i + 1..k])
    {
      DepthStep(eq, i, k);
    }
    if Closes(eq, i, d, j) {
      assert j != i;
      var i1 := i + 1;
      forall k | i1 <= k <= j
        ensures d' + Depth(eq[i1..k]) >= 0
      {
        assert d + Depth(eq[i..k]) >= 0;
      }
    }
    if Closes(eq, i + 1, d', j) {
      forall k | i <= k <= j
        ensures d + Depth(eq[i..k]) >= 0
      {
        if k == i {
          assert eq[i..k] == [];
        }
      }
    }
  }

  lemma CloseHere(eq: seq<string>, i: nat, j: nat)
    requires i < |eq| && eq[i] == ")"
    ensures Closes(eq, i, 0, j) <==> j == i
  {
    assert eq[i..i] == [];
    if j > i {
      assert eq[i..i + 1] == [eq[i]];
      DepthOne(eq[i]);
    }
  }

  lemma {:induction false} MatchFromCloses(eq: seq<string>, i: nat, d: nat, j: nat)
    ensures MatchFrom(eq, i, d) == Some(j) <==> Closes(eq, i, d, j)
    decreases |eq| - i
  {
    if i < |eq| {
      if eq[i] == ")" && d == 0 {
        CloseHere(eq, i, j);
      } else {
        var d' := if eq[i] == ")" then d - 1 else if eq[i] == "(" then d + 1 else d;
        DepthOne(eq[i]);
        CloseShift(eq, i, d, d', j);
        MatchFromCloses(eq, i + 1, d', j);
      }
    }
  }

  /** The block found is exactly the one the nesting depth delimits: it
      holds as many `(` as `)`, none of its prefixes closes more than it
      opens, and it is followed by a `)`; and the index found is the only
      one with that property. */
  lemma ClosingIsMatch(eq: seq<string>, i: nat, j: nat)
    ensures Closing(eq, i) == Some(j) <==>
      && i <= j < |eq| && eq[j] == ")"
      && Count(eq[i..j], "(") == Count(eq[i..j], ")")
      && forall k :: i <= k <= j ==> Depth(eq[i..k]) >= 0
  {
    MatchFromCloses(eq, i, 0, j);
  }

  /** No closing parenthesis is found exactly when every prefix of the rest
      of the list is balanced or still open. */
  lemma NoClosing(eq: seq<string>, i: nat)
    requires i <= |eq|
    ensures Closing(eq, i).None? <==>
      forall j :: i <= j < |eq| && eq[j] == ")" ==> Depth(eq[i..j]) != 0 || exists k :: i <= k <= j && Depth(eq[i..k]) < 0
  {
    if Closing(eq, i).Some? {
      MatchFromCloses(eq, i, 0, Closing(eq, i).value);
    }
    forall j | i <= j < |eq| && eq[j] == ")" && Depth(eq[i..j]) == 0 && !(exists k :: i <= k <= j && Depth(eq[i..k]) < 0)
      ensures Closing(eq, i) == Some(j)
    {
      MatchFromCloses(eq, i, 0, j);
    }
  }

  /** As many `(` as `)`, and no prefix closes more than it opens. */
  predicate Matched(blk: seq<string>) {
    Count(blk, "(") == Count(blk, ")") && forall k :: 0 <= k <= |blk| ==> Depth(blk[..k]) >= 0
  }

  /** A balanced block followed by `)` is closed by that `)`. */
  lemma BlockCloses(eq: seq<string>, i: nat, blk: seq<string>)
    requires Matched(blk) && i + |blk| < |eq|
    requires eq[i..i + |blk|] == blk && eq[i + |blk|] == ")"
    ensures Closing(eq, i) == Some(i + |blk|)
  {
    var j := i + |blk|;
    forall k | i <= k <= j
      ensures Depth(eq[i..k]) >= 0
    {
      assert eq[i..k] == blk[..k - i];
    }
    ClosingIsMatch(eq, i, j);
  }

  /** An index found in `Y` moved past the `m` entries put in front of it. */
  function Shifted(r: Option<nat>, m: nat): Option<nat> {
    match r
    case None => None
    case Some(j) => Some(m + j)
  }

  /** The search for `)` looks only at the entries from its start on. */
  lemma {:induction false} MatchShift(x: seq<string>, y: seq<string>, i: nat, d: nat)
    ensures MatchFrom(x + y, |x| + i, d) == Shifted(MatchFrom(y, i, d), |x|)
    decreases |y| - i
  {
    if i < |y| {
      assert (x + y)[|x| + i] == y[i];
      var d' := if y[i] == ")" then d - 1 else if y[i] == "(" then d + 1 else d;
      if !(y[i] == ")" && d == 0) {
        MatchShift(x, y, i + 1, d');
      }
    }
  }

  lemma RestShift(x: seq<string>, y: seq<string>, i: nat)
    ensures Rest(x + y, |x| + i) == Rest(y, i)
  {
    if i <= |y| {
      assert (x + y)[|x| + i..] == y[i..];
    }
  }
}
