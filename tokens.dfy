/** Shared vocabulary of the equation parser: tokens, error kinds, the character
    and token classes of its regular expressions, the operator, function and
    constant tables, and the arithmetic on values. */
module Tokens {

  /** A list entry of the evaluator: either a piece of the split text, or a
      value that replaced a constant or a parenthesised block. */
  datatype Token = Str(s: string) | Val(v: real)

  /** The ways an evaluation fails; each one aborts the whole evaluation. */
  datatype Error =
    | EmptyEquation
    | MalformedParenthesis(block: seq<string>)
    | UnopenedParenthesis
    | MissingToken
    | FunctionError(name: string)
    | UnsupportedOperation(before: Token, minus: Token, after: Token)
    | TrailingMinus
    | NotANumber(t: Token)
    | UndefinedVariable(name: string)
    | UnknownOperator(op: string)
    | MismatchedParenthesis
    | ErrorAt(text: string)
    | UndefinedOperator(op: string)
    | StackUnderflow
    | MalformedEquation

  datatype Result<T> = Ok(value: T) | Err(error: Error)

  datatype Option<T> = None | Some(value: T)

  // ---------------------------------------------------------------------
  // Character classes (ASCII readings of the regular-expression classes)
  // ---------------------------------------------------------------------

  predicate IsDigit(c: char) { '0' <= c <= '9' }

  /** `\w`: letters, digits and underscore. */
  predicate IsWordChar(c: char) {
    IsDigit(c) || 'a' <= c <= 'z' || 'A' <= c <= 'Z' || c == '_'
  }

  /** `\s`: blank, the control characters 9-13 and the separators 28-31. */
  predicate IsSpace(c: char) {
    c == ' ' || 9 <= c as int <= 13 || 28 <= c as int <= 31
  }

  /** A character the tokenizer isolates: neither `\w`, `.` nor `\s`. */
  predicate IsSymbol(c: char) {
    !IsWordChar(c) && c != '.' && !IsSpace(c)
  }

  // ---------------------------------------------------------------------
  // Numerals
  // ---------------------------------------------------------------------

  function Dots(s: string): nat {
    if s == [] then 0 else Dots(s[1..]) + (if s[0] == '.' then 1 else 0)
  }

  predicate DigitsAndDots(s: string) {
    forall i :: 0 <= i < |s| ==> IsDigit(s[i]) || s[i] == '.'
  }

  /** `\d*\.?\d+` as a whole string. */
  predicate UnsignedNumeral(s: string) {
    |s| > 0 && IsDigit(s[|s| - 1]) && DigitsAndDots(s) && Dots(s) <= 1
  }

  /** The `real_num` pattern `^\-?\d*\.?\d+$`. */
  predicate RealNum(s: string) {
    UnsignedNumeral(s) || (|s| > 0 && s[0] == '-' && UnsignedNumeral(s[1..]))
  }

  /** The `term` pattern, matched at the start of the text only. */
  predicate IsTerm(s: string) {
    RealNum(s) || (|s| > 0 && (IsWordChar(s[0]) || s[0] == '.'))
  }

  /** The `operator` pattern `[^\w\s\.]`, matched at the start of the text. */
  predicate IsOperatorText(s: string) {
    |s| > 0 && IsSymbol(s[0])
  }

  function HasDigit(s: string): bool {
    if s == [] then false else IsDigit(s[0]) || HasDigit(s[1..])
  }

  /** Decimal text accepted by the numeric conversion: an optional sign,
      digits with at most one `.`, and at least one digit. */
  predicate FloatSyntax(s: string) {
    var body := if |s| > 0 && (s[0] == '-' || s[0] == '+') then s[1..] else s;
    DigitsAndDots(body) && Dots(body) <= 1 && HasDigit(body)
  }

  function DigitValue(c: char): nat
    requires IsDigit(c)
  {
    (c as int - '0' as int) as nat
  }

  /** Value of a digit string, dots skipped. */
  function DigitsValue(s: string): nat
    requires DigitsAndDots(s)
  {
    if s == [] then 0
    else if s[|s| - 1] == '.' then DigitsValue(s[..|s| - 1])
    else 10 * DigitsValue(s[..|s| - 1]) + DigitValue(s[|s| - 1])
  }

  /** Number of digits after the dot (0 when there is none). */
  function FractionDigits(s: string): nat {
    if s == [] || s[|s| - 1] == '.' then 0
    else if Dots(s) == 0 then 0
    else 1 + FractionDigits(s[..|s| - 1])
  }

  function Pow10(k: nat): (r: nat)
    ensures r >= 1
  {
    if k == 0 then 1 else 10 * Pow10(k - 1)
  }

  function Magnitude(body: string): real
    requires DigitsAndDots(body)
  {
    DigitsValue(body) as real / Pow10(FractionDigits(body)) as real
  }

  /** The numeric conversion `np.longdouble(text)`, restricted to plain decimals. */
  function ParseFloat(s: string): (r: Option<real>)
    ensures r.Some? <==> FloatSyntax(s)
  {
    if !FloatSyntax(s) then None
    else if |s| > 0 && s[0] == '-' then Some(-Magnitude(s[1..]))
    else if |s| > 0 && s[0] == '+' then Some(Magnitude(s[1..]))
    else Some(Magnitude(s))
  }

  lemma {:induction false} UnsignedHasDigit(s: string)
    requires |s| > 0 && IsDigit(s[|s| - 1])
    ensures HasDigit(s)
  {
    if !IsDigit(s[0]) {
      UnsignedHasDigit(s[1..]);
    }
  }

  /** Every `real_num` text converts to a number. */
  lemma RealNumParses(s: string)
    requires RealNum(s)
    ensures ParseFloat(s).Some?
  {
    if UnsignedNumeral(s) {
      UnsignedHasDigit(s);
    } else {
      UnsignedHasDigit(s[1..]);
    }
  }

  /** A text starting with a symbol never converts to a number. */
  lemma SymbolTextDoesNotParse(s: string)
    requires |s| > 0 && IsSymbol(s[0]) && s[0] != '-' && s[0] != '+'
    ensures ParseFloat(s).None?
  {
    assert !DigitsAndDots(s);
  }

  /** Digits only, no dot. */
  predicate AllDigits(s: string) {
    forall i :: 0 <= i < |s| ==> IsDigit(s[i])
  }

  /** The decimal value of a digit string, read from its most significant
      digit: d₁·10^(k-1) + … + dₖ. */
  function Decimal(ds: string): nat
    requires AllDigits(ds)
  {
    if ds == [] then 0 else DigitValue(ds[0]) * Pow10(|ds| - 1) + Decimal(ds[1..])
  }

  /** One more digit at the end multiplies the value by ten and adds it. */
  lemma {:induction false} DecimalSnoc(ds: string, c: char)
    requires AllDigits(ds) && IsDigit(c)
    ensures AllDigits(ds + [c])
    ensures Decimal(ds + [c]) == 10 * Decimal(ds) + DigitValue(c)
  {
    if ds != [] {
      var t := ds[1..];
      assert (ds + [c])[1..] == t + [c];
      DecimalSnoc(t, c);
      DecimalFront(ds + [c]);
      DecimalFront(ds);
      ScaleFront(DigitValue(ds[0]), Pow10(|t|), Decimal(t), DigitValue(c));
    }
  }

  lemma DecimalFront(ds: string)
    requires ds != [] && AllDigits(ds)
    ensures Decimal(ds) == DigitValue(ds[0]) * Pow10(|ds| - 1) + Decimal(ds[1..])
  {
  }

  lemma ScaleFront(d: nat, p: nat, r: nat, c: nat)
    ensures d * (10 * p) + (10 * r + c) == 10 * (d * p + r) + c
  {
  }

  lemma {:induction false} DotsAppend(a: string, b: string)
    ensures Dots(a + b) == Dots(a) + Dots(b)
  {
    if a != [] {
      assert (a + b)[1..] == a[1..] + b;
      DotsAppend(a[1..], b);
    } else {
      assert a + b == b;
    }
  }

  lemma {:induction false} DigitsHaveNoDot(ds: string)
    requires AllDigits(ds)
    ensures Dots(ds) == 0
  {
    if ds != [] {
      DigitsHaveNoDot(ds[1..]);
    }
  }

  /** Read from the back, the digits of a digit string have its decimal
      value. */
  lemma {:induction false} DigitsValueIsDecimal(ds: string)
    requires AllDigits(ds)
    ensures DigitsAndDots(ds) && DigitsValue(ds) == Decimal(ds)
  {
    if ds != [] {
      var p := ds[..|ds| - 1];
      DigitsValueIsDecimal(p);
      DecimalSnoc(p, ds[|ds| - 1]);
      assert p + [ds[|ds| - 1]] == ds;
    }
  }

  /** A digit string converts to its decimal value. */
  lemma DigitsParse(ds: string)
    requires ds != [] && AllDigits(ds)
    ensures ParseFloat(ds) == Some(Decimal(ds) as real)
  {
    DigitsValueIsDecimal(ds);
    DigitsHaveNoDot(ds);
    assert FloatSyntax(ds);
  }

  lemma PointSyntax(ip: string, fp: string)
    requires AllDigits(ip) && AllDigits(fp)
    ensures DigitsAndDots(ip + "." + fp) && Dots(ip + "." + fp) == 1
  {
    DigitsHaveNoDot(ip);
    DigitsHaveNoDot(fp);
    DotsAppend(ip, ".");
    DotsAppend(ip + ".", fp);
  }

  /** Read from the back, `int.frac` has the value of its digits with the
      dot ignored. */
  lemma {:induction false} PointValue(ip: string, fp: string)
    requires AllDigits(ip) && AllDigits(fp)
    ensures DigitsAndDots(ip + "." + fp)
    ensures DigitsValue(ip + "." + fp) == Decimal(ip) * Pow10(|fp|) + Decimal(fp)
  {
    PointSyntax(ip, fp);
    var s := ip + "." + fp;
    if fp == [] {
      assert s[..|s| - 1] == ip;
      DigitsValueIsDecimal(ip);
    } else {
      var q, c := fp[..|fp| - 1], fp[|fp| - 1];
      PointValue(ip, q);
      assert s[..|s| - 1] == ip + "." + q;
      assert s[|s| - 1] == c;
      DecimalSnoc(q, c);
      assert q + [c] == fp;
      ScaleStep(Decimal(ip), Pow10(|q|), Decimal(q), DigitValue(c));
    }
  }

  lemma ScaleStep(d: nat, p: nat, q: nat, c: nat)
    ensures 10 * (d * p + q) + c == d * (10 * p) + (10 * q + c)
  {
  }

  /** The digits after the dot are counted as the fraction. */
  lemma {:induction false} PointFraction(ip: string, fp: string)
    requires AllDigits(ip) && AllDigits(fp)
    ensures FractionDigits(ip + "." + fp) == |fp|
  {
    var s := ip + "." + fp;
    if fp == [] {
      assert s[|s| - 1] == '.';
    } else {
      var q := fp[..|fp| - 1];
      PointSyntax(ip, fp);
      PointFraction(ip, q);
      assert s[..|s| - 1] == ip + "." + q;
      assert s[|s| - 1] != '.';
    }
  }

  /** `int.frac` is accepted by the conversion. */
  lemma PointAccepted(ip: string, fp: string)
    requires AllDigits(ip) && AllDigits(fp) && |ip| + |fp| > 0
    ensures FloatSyntax(ip + "." + fp) && (ip + "." + fp)[0] != '-' && (ip + "." + fp)[0] != '+'
  {
    var s := ip + "." + fp;
    PointSyntax(ip, fp);
    if ip != [] {
      assert s[0] == ip[0];
    } else {
      assert s[1..] == fp;
      assert HasDigit(s[1..]);
    }
  }

  /** `int.frac` converts to x = int + frac / 10^|frac|. */
  lemma PointParse(ip: string, fp: string, x: real)
    requires AllDigits(ip) && AllDigits(fp) && |ip| + |fp| > 0
    requires x == Decimal(ip) as real + Decimal(fp) as real / Pow10(|fp|) as real
    ensures ParseFloat(ip + "." + fp) == Some(x)
  {
    PointMagnitude(ip, fp);
    PointConverts(ip, fp, x);
  }

  lemma PointConverts(ip: string, fp: string, x: real)
    requires AllDigits(ip) && AllDigits(fp) && |ip| + |fp| > 0
    requires DigitsAndDots(ip + "." + fp) && Magnitude(ip + "." + fp) == x
    ensures ParseFloat(ip + "." + fp) == Some(x)
  {
    PointAccepted(ip, fp);
    UnsignedParse(ip + "." + fp);
  }

  lemma PointMagnitude(ip: string, fp: string)
    requires AllDigits(ip) && AllDigits(fp)
    ensures DigitsAndDots(ip + "." + fp)
    ensures Magnitude(ip + "." + fp) == Decimal(ip) as real + Decimal(fp) as real / Pow10(|fp|) as real
  {
    PointValue(ip, fp);
    PointFraction(ip, fp);
    MagnitudeOf(ip + "." + fp, Decimal(ip), Pow10(|fp|), Decimal(fp));
  }

  /** Accepted text without a sign converts to its magnitude. */
  lemma UnsignedParse(s: string)
    requires FloatSyntax(s) && |s| > 0 && s[0] != '-' && s[0] != '+'
    ensures DigitsAndDots(s) && ParseFloat(s) == Some(Magnitude(s))
  {
  }

  /** Digits worth d·p + f with p the scale of the fraction are worth
      d + f / p. */
  lemma MagnitudeOf(s: string, d: nat, p: nat, f: nat)
    requires DigitsAndDots(s) && p == Pow10(FractionDigits(s)) && DigitsValue(s) == d * p + f
    ensures Magnitude(s) == d as real + f as real / p as real
  {
    RealSplit(d, p, f);
  }

  lemma RealSplit(d: nat, p: nat, f: nat)
    requires p >= 1
    ensures (d * p + f) as real / p as real == d as real + f as real / p as real
  {
    assert (d * p + f) as real == d as real * p as real + f as real;
  }

  /** A leading `-` negates, and a leading `+` changes nothing. */
  lemma SignParse(s: string)
    requires |s| > 0 && s[0] != '-' && s[0] != '+'
    ensures ParseFloat("-" + s).Some? <==> ParseFloat(s).Some?
    ensures ParseFloat(s).Some? ==> ParseFloat("-" + s) == Some(-ParseFloat(s).value)
    ensures ParseFloat("+" + s) == ParseFloat(s)
  {
    assert ("-" + s)[1..] == s;
    assert ("+" + s)[1..] == s;
  }

  lemma ParseExamples()
    ensures ParseFloat("12.5") == Some(12.5)
    ensures ParseFloat(".5") == Some(0.5)
    ensures ParseFloat("-7") == Some(-7.0)
  {
    PointExample();
    FractionExample();
    NegativeExample();
  }

  lemma PointExample()
    ensures ParseFloat("12.5") == Some(12.5)
  {
    assert Decimal("12") == 12;
    assert Decimal("5") == 5;
    PointParse("12", "5", 12.5);
    assert "12" + "." + "5" == "12.5";
  }

  lemma FractionExample()
    ensures ParseFloat(".5") == Some(0.5)
  {
    assert Decimal("5") == 5;
    PointParse("", "5", 0.5);
    assert "" + "." + "5" == ".5";
  }

  lemma NegativeExample()
    ensures ParseFloat("-7") == Some(-7.0)
  {
    DigitsParse("7");
    SignParse("7");
    assert "-" + "7" == "-7";
  }

  // ---------------------------------------------------------------------
  // Tables
  // ---------------------------------------------------------------------

  /** The six binary operators of the `precedence` and `associative` tables. */
  datatype Op = Pow | Mul | Div | Mod | Add | Sub

  /** The text of an operator. */
  function Symbol(o: Op): string {
    match o
    case Pow => "^"
    case Mul => "*"
    case Div => "/"
    case Mod => "%"
    case Add => "+"
    case Sub => "-"
  }

  /** Lookup of a text in the operator tables (a missing key is None). */
  function OpOf(s: string): (r: Option<Op>)
    ensures r.Some? ==> Symbol(r.value) == s
  {
    if s == "^" then Some(Pow)
    else if s == "*" then Some(Mul)
    else if s == "/" then Some(Div)
    else if s == "%" then Some(Mod)
    else if s == "+" then Some(Add)
    else if s == "-" then Some(Sub)
    else None
  }

  /** The `precedence` table. */
  function Prec(o: Op): nat {
    match o
    case Pow => 3
    case Mul => 2
    case Div => 2
    case Mod => 2
    case Add => 1
    case Sub => 1
  }

  /** The `associative` table: every operator but `^` groups to the left. */
  predicate LeftAssoc(o: Op) {
    o != Pow
  }

  /** Every table operator is found under its own text, and a symbol names
      one operator only. */
  lemma OpOfSymbol(o: Op)
    ensures OpOf(Symbol(o)) == Some(o)
    ensures |Symbol(o)| == 1 && IsSymbol(Symbol(o)[0])
  {
  }

  /** The text of an operator is an operator token: not a term, not a
      parenthesis, and not a number. */
  lemma SymbolIsOperatorText(o: Op)
    ensures IsOperatorText(Symbol(o)) && !IsTerm(Symbol(o))
    ensures Symbol(o) != "(" && Symbol(o) != ")"
    ensures ParseFloat(Symbol(o)).None?
  {
    var s := Symbol(o);
    assert |s| == 1;
    assert !UnsignedNumeral(s);
    assert !HasDigit(s[1..]);
  }

  /** The `functions` list. */
  const Functions: seq<string> := ["cos", "sec", "sin", "csc", "tan", "cot", "sqrt", "log", "log10"]

  predicate IsFunctionName(s: string) {
    s in Functions
  }

  /** `f` occurs as a contiguous piece of `s`. */
  predicate OccursIn(f: string, s: string) {
    |f| <= |s| && (s[..|f|] == f || OccursIn(f, s[1..]))
  }

  /** `any(element in op for element in functions)`. */
  predicate MentionsFunction(s: string) {
    exists f :: f in Functions && OccursIn(f, s)
  }

  /** The `constants` table, with the decimal expansions the values print as. */
  function ConstantValue(name: string): Option<real> {
    if name == "pi" then Some(3.141592653589793)
    else if name == "e" then Some(2.718281828459045)
    else None
  }

  // ---------------------------------------------------------------------
  // Arithmetic
  // ---------------------------------------------------------------------

  /** The numeric library the evaluator calls and that is not modelled:
      power, true division, remainder, and the named one-argument functions
      (None when the function call fails). */
  datatype Numerics = Numerics(
    pow: (real, real) -> real,
    div: (real, real) -> real,
    mod: (real, real) -> real,
    func: (string, real) -> Option<real>)

  /** `a o b`; `a` is the left operand. */
  function BinOp(n: Numerics, o: Op, a: real, b: real): real {
    match o
    case Pow => n.pow(a, b)
    case Mul => a * b
    case Div => n.div(a, b)
    case Mod => n.mod(a, b)
    case Add => a + b
    case Sub => a - b
  }

  /** `real_num.match(str(t))`: a value prints as a plain decimal. */
  predicate IsNumeric(t: Token) {
    t.Val? || RealNum(t.s)
  }

  /** `operator.match(str(t))`: a text starting with a symbol, or a negative
      value, whose printed form starts with `-`. */
  predicate IsOperatorToken(t: Token) {
    match t
    case Str(s) => IsOperatorText(s)
    case Val(v) => v < 0.0
  }

  /** The numeric conversion applied to a list entry. */
  function NumberOf(t: Token): Option<real> {
    match t
    case Val(v) => Some(v)
    case Str(s) => ParseFloat(s)
  }

  /** `prefix` in front of the list `r`, unless `r` is an error. */
  function Prepend(prefix: seq<Token>, r: Result<seq<Token>>): Result<seq<Token>> {
    match r
    case Err(e) => Err(e)
    case Ok(x) => Ok(prefix + x)
  }

  lemma PrependNothing(r: Result<seq<Token>>)
    ensures Prepend([], r) == r
  {
    if r.Ok? {
      assert [] + r.value == r.value;
    }
  }

  lemma PrependTwice(a: seq<Token>, b: seq<Token>, r: Result<seq<Token>>)
    ensures Prepend(a, Prepend(b, r)) == Prepend(a + b, r)
  {
    if r.Ok? {
      assert a + (b + r.value) == (a + b) + r.value;
    }
  }
}
