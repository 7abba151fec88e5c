/** node::evaluate of c_tree.cpp over 32-bit C++ int: literals go through
    stod and a conversion to int, the operators are C++'s, and every case
    the language leaves undefined (a null operand, a zero divisor, a result
    outside int) is a Failure. */
module Evaluator {
  import opened Tokens
  import opened Ast
  import opened MachineInt

  predicate IsDigit(c: char) { '0' <= c <= '9' }

  predicate AllDigits(s: string) { forall k :: 0 <= k < |s| ==> IsDigit(s[k]) }

  /** The value of a string of decimal digits, most significant first. */
  function DecimalValue(s: string): (v: nat)
    requires AllDigits(s)
  {
    if s == [] then 0 else DecimalValue(s[..|s| - 1]) * 10 + (s[|s| - 1] - '0') as int
  }

  /** Leading zeros do not change the value, and appending a digit shifts
      the value one decimal place. */
  lemma {:induction false} DecimalValueLeadingZero(s: string)
    requires AllDigits(s)
    ensures AllDigits("0" + s) && DecimalValue("0" + s) == DecimalValue(s)
  {
    var z := "0" + s;
    assert AllDigits(z) by {
      forall k | 0 <= k < |z|
        ensures IsDigit(z[k])
      {
        if k > 0 { assert z[k] == s[k - 1]; }
      }
    }
    if s != [] {
      var p := s[..|s| - 1];
      assert z[..|z| - 1] == "0" + p;
      DecimalValueLeadingZero(p);
    }
  }

  /** stod on a literal the lexer produced (a run of digits), converted to
      int: undefined when the value does not fit. */
  function LiteralValue(val: string): (r: Result<int>)
    ensures r.Success? <==> |val| > 0 && AllDigits(val) && DecimalValue(val) <= MaxInt32
    ensures r.Success? ==> r.value == DecimalValue(val) && InInt32(r.value)
  {
    if |val| > 0 && AllDigits(val) && DecimalValue(val) <= MaxInt32 then Success(DecimalValue(val))
    else Failure
  }

  /** An int result, undefined when it overflows. */
  function Checked(v: int): (r: Result<int>)
    ensures r.Success? <==> InInt32(v)
    ensures r.Success? ==> r.value == v
  {
    if InInt32(v) then Success(v) else Failure
  }

  /** A binary operator of evaluate on the values of its operands: the
      sum, difference and product, defined exactly when they fit an int;
      and C++'s truncating quotient q and remainder m, with a == b * q + m,
      m smaller than b in magnitude and of the sign of a, defined exactly
      when b is not zero and q fits an int. */
  function Apply(op: TokenId, a: int, b: int): (r: Result<int>)
    requires op in {Plus, Minus, Mult, Div, Mod} && InInt32(a) && InInt32(b)
    ensures r.Success? ==> InInt32(r.value)
    ensures op == Plus ==> (r.Success? <==> InInt32(a + b)) && (r.Success? ==> r.value == a + b)
    ensures op == Minus ==> (r.Success? <==> InInt32(a - b)) && (r.Success? ==> r.value == a - b)
    ensures op == Mult ==> (r.Success? <==> InInt32(a * b)) && (r.Success? ==> r.value == a * b)
    ensures op in {Div, Mod} ==> (r.Success? <==> b != 0 && InInt32(TDiv(a, b)))
    ensures op == Div && r.Success? ==> r.value == TDiv(a, b) && a == b * r.value + TMod(a, b)
    ensures op == Mod && r.Success? ==> r.value == TMod(a, b) && a == b * TDiv(a, b) + r.value
    ensures op in {Div, Mod} && r.Success? ==>
              Abs(TMod(a, b)) < Abs(b) && (a >= 0 ==> TMod(a, b) >= 0) && (a <= 0 ==> TMod(a, b) <= 0)
  {
    if op == Plus then Checked(a + b)
    else if op == Minus then Checked(a - b)
    else if op == Mult then Checked(a * b)
    else if b == 0 then Failure
    else if op == Div then TruncatedDivision(a, b); Checked(TDiv(a, b))
    else if InInt32(TDiv(a, b)) then TModMagnitude(a, b); TruncatedDivision(a, b); Success(TMod(a, b))
    else Failure
  }

  /** node::evaluate */
  function Evaluate(n: Node): (r: Result<int>)
    ensures r.Success? ==> InInt32(r.value)
  {
    match n
    case Nil => Failure
    case Node(t, l, rt, _, _) =>
      if t.id == Integer || t.id == Real then LiteralValue(t.val)
      else if t.id == Minus && l == Nil then
        match Evaluate(rt)
        case Failure => Failure
        case Success(b) => Checked(-b)
      else if t.id in {Plus, Minus, Mult, Div, Mod} then
        match Evaluate(l)
        case Failure => Failure
        case Success(a) =>
          match Evaluate(rt)
          case Failure => Failure
          case Success(b) => Apply(t.id, a, b)
      else Success(0)
  }

  /** A literal leaf is the value of its text converted to int. */
  lemma EvaluateLiteral(n: Node)
    requires n.Node? && n.token.id in {Integer, Real}
    ensures Evaluate(n) == LiteralValue(n.token.val)
  {
  }

  /** A minus without a left operand negates its right operand, which
      overflows only for INT_MIN; a failure of the operand propagates. */
  lemma EvaluateNegation(n: Node)
    requires n.Node? && n.token.id == Minus && n.left == Nil
    ensures Evaluate(n.right).Failure? ==> Evaluate(n).Failure?
    ensures Evaluate(n.right).Success? ==>
              (Evaluate(n).Success? <==> Evaluate(n.right).value != MinInt32)
              && (Evaluate(n).Success? ==> Evaluate(n).value == -Evaluate(n.right).value)
  {
  }

  /** Any other token evaluates to 0, and a null node never evaluates. */
  lemma EvaluateOther(n: Node)
    requires n.Node? ==> n.token.id !in {Integer, Real, Plus, Minus, Mult, Div, Mod}
    ensures n.Nil? ==> Evaluate(n).Failure?
    ensures n.Node? ==> Evaluate(n) == Success(0)
  {
  }

  /** The value of a binary node is its operator applied to the values of
      its operands. */
  lemma EvaluateBinary(t: Token, l: Node, r: Node, a: int, b: int)
    requires Evaluate(l) == Success(a) && Evaluate(r) == Success(b)
    requires l != Nil && t.id in {Plus, Minus, Mult, Div, Mod}
    ensures Evaluate(Inner(t, l, r)) == Apply(t.id, a, b)
  {
  }

  /** Negating twice gives the value back, except for the one int whose
      negation overflows. */
  lemma DoubleNegation(m1: Token, m2: Token, x: Node, v: int)
    requires m1.id == Minus && m2.id == Minus && Evaluate(x) == Success(v)
    ensures Evaluate(Inner(m1, Nil, Inner(m2, Nil, x))) == if v == MinInt32 then Failure else Success(v)
  {
  }

  /** A division by zero never evaluates, whatever the dividend. */
  lemma DivisionByZero(t: Token, l: Node, r: Node)
    requires t.id in {Div, Mod} && l != Nil && Evaluate(r) == Success(0)
    ensures Evaluate(Inner(t, l, r)) == Failure
  {
  }
}
