/** `substitute_vars`: every entry of the token list that names a constant
    is overwritten, in place, by the constant's value. */
module Substitute {
  import opened Tokens

  /** An entry that is a key of the `constants` table. */
  predicate IsConstant(t: Token) {
    t.Str? && ConstantValue(t.s).Some?
  }

  /** The entry after substitution. */
  function SubstituteOne(t: Token): Token {
    if IsConstant(t) then Val(ConstantValue(t.s).value) else t
  }

  /** The list after substitution. */
  function Substituted(ts: seq<Token>): (r: seq<Token>)
    ensures |r| == |ts|
  {
    seq(|ts|, k requires 0 <= k < |ts| => SubstituteOne(ts[k]))
  }

  /** `substitute_vars`: overwrite each constant name with its value. */
  method SubstituteVars(tokens: array<Token>)
    modifies tokens
    ensures tokens[..] == Substituted(old(tokens[..]))
  {
    for i := 0 to tokens.Length
      invariant forall k :: 0 <= k < i ==> tokens[k] == SubstituteOne(old(tokens[k]))
      invariant forall k :: i <= k < tokens.Length ==> tokens[k] == old(tokens[k])
    {
      if IsConstant(tokens[i]) {
        tokens[i] := Val(ConstantValue(tokens[i].s).value);
      }
    }
  }

  /** Exactly the constant names change, each into its value; every other
      entry stays as it was. */
  lemma SubstitutedEntries(ts: seq<Token>, k: nat)
    requires k < |ts|
    ensures Substituted(ts)[k] != ts[k] <==> IsConstant(ts[k])
    ensures IsConstant(ts[k]) ==> Substituted(ts)[k] == Val(ConstantValue(ts[k].s).value)
  {
  }

  /** No constant name is left. */
  lemma NoConstantLeft(ts: seq<Token>)
    ensures forall k :: 0 <= k < |ts| ==> !IsConstant(Substituted(ts)[k])
  {
  }

  /** Substituting twice is substituting once. */
  lemma SubstituteIdempotent(ts: seq<Token>)
    ensures Substituted(Substituted(ts)) == Substituted(ts)
  {
    var r := Substituted(ts);
    assert forall k :: 0 <= k < |r| ==> !IsConstant(r[k]);
  }

  /** A list without constant names is left as it is. */
  lemma SubstituteNoConstants(ts: seq<Token>)
    requires forall k :: 0 <= k < |ts| ==> !IsConstant(ts[k])
    ensures Substituted(ts) == ts
  {
  }
}
