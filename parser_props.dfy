/** What the grammar of c_tree.cpp means: the trees it builds, and a printer
    whose output the parser reads back into the same tree, which fixes
    precedence (* / % bind tighter than + -) and left associativity. */
module ParserProperties {
  import opened Tokens
  import opened Ast
  import opened Parser

  /** A node parse_expression builds: a literal leaf, a negation (a minus
      without a left operand) or a binary operator over two such trees. */
  predicate Shaped(n: Node) {
    match n
    case Nil => false
    case Node(t, l, r, nx, slot) =>
      nx == Nil && slot == -1 &&
      if l == Nil then
        (r == Nil && (t.id == Integer || t.id == Real)) || (t.id == Minus && Shaped(r))
      else
        (IsAddOp(t.id) || IsMulOp(t.id)) && Shaped(l) && Shaped(r)
  }

  /** A binary node, as opposed to a leaf or a negation. */
  predicate IsBinary(n: Node) {
    n.Node? && n.left != Nil
  }

  /** The measures that order the printers and the round-trip lemmas on one
      node: a factor printer or parse reaches the expression level only for
      a binary node, and the levels below the top one only for a node that
      is not a binary of that level. */
  function FactorRank(n: Node): nat {
    if !IsBinary(n) then 0 else if IsMulOp(n.token.id) then 2 else 1
  }
  function TermRank(n: Node): nat {
    if !IsBinary(n) then 1 else if IsMulOp(n.token.id) then 0 else 2
  }
  function ExpressionRank(n: Node): nat {
    if !IsBinary(n) then 2 else if IsMulOp(n.token.id) then 1 else 0
  }

  const OpenParen := Token(LParen, 0, 0, "(")
  const CloseParen := Token(RParen, 0, 0, ")")

  /** The number of tokens of a printed factor, term and expression. */
  function FactorLen(n: Node): (m: nat)
    ensures m > 0
    decreases n, FactorRank(n)
  {
    if IsBinary(n) then ExpressionLen(n) + 2
    else if n.Nil? || n.right == Nil then 1
    else 1 + FactorLen(n.right)
  }

  function TermLen(n: Node): (m: nat)
    ensures m > 0
    decreases n, TermRank(n)
  {
    if IsBinary(n) && IsMulOp(n.token.id) then TermLen(n.left) + 1 + FactorLen(n.right)
    else FactorLen(n)
  }

  function ExpressionLen(n: Node): (m: nat)
    ensures m > 0
    decreases n, ExpressionRank(n)
  {
    if IsBinary(n) && !IsMulOp(n.token.id) then ExpressionLen(n.left) + 1 + TermLen(n.right)
    else TermLen(n)
  }

  /** The tokens of a factor: a leaf, a negation, or a parenthesised binary. */
  function PrintFactor(n: Node): (p: seq<Token>)
    requires Shaped(n)
    ensures |p| == FactorLen(n)
    decreases n, FactorRank(n)
  {
    if IsBinary(n) then [OpenParen] + PrintExpression(n) + [CloseParen]
    else if n.right == Nil then [n.token]
    else [n.token] + PrintFactor(n.right)
  }

  /** The tokens of a term: a product chain printed without parentheses. */
  function PrintTerm(n: Node): (p: seq<Token>)
    requires Shaped(n)
    ensures |p| == TermLen(n)
    decreases n, TermRank(n)
  {
    if IsBinary(n) && IsMulOp(n.token.id) then PrintTerm(n.left) + [n.token] + PrintFactor(n.right)
    else PrintFactor(n)
  }

  /** The tokens of an expression: a sum chain printed without parentheses. */
  function PrintExpression(n: Node): (p: seq<Token>)
    requires Shaped(n)
    ensures |p| == ExpressionLen(n)
    decreases n, ExpressionRank(n)
  {
    if IsBinary(n) && IsAddOp(n.token.id) then PrintExpression(n.left) + [n.token] + PrintTerm(n.right)
    else PrintTerm(n)
  }

  /** The tokens p occur in s from index i. */
  ghost predicate At(s: seq<Token>, i: nat, p: seq<Token>) {
    i + |p| <= |s| && Matches(s, i, p)
  }

  /** Token by token: p[0] at i, p[1] at i + 1, and so on. */
  ghost predicate Matches(s: seq<Token>, i: nat, p: seq<Token>)
    decreases |p|
  {
    |p| == 0 || (i < |s| && s[i] == p[0] && Matches(s, i + 1, p[1..]))
  }

  lemma {:induction false} MatchesSplit(s: seq<Token>, i: nat, a: seq<Token>, b: seq<Token>)
    requires Matches(s, i, a + b)
    ensures Matches(s, i, a) && Matches(s, i + |a|, b)
    decreases |a|
  {
    if |a| == 0 {
      assert a + b == b;
    } else {
      assert (a + b)[0] == a[0];
      assert (a + b)[1..] == a[1..] + b;
      MatchesSplit(s, i + 1, a[1..], b);
    }
  }

  lemma AtSplit(s: seq<Token>, i: nat, a: seq<Token>, b: seq<Token>)
    requires At(s, i, a + b)
    ensures At(s, i, a) && At(s, i + |a|, b)
  {
    MatchesSplit(s, i, a, b);
  }

  lemma AtSplit3(s: seq<Token>, i: nat, a: seq<Token>, b: seq<Token>, c: seq<Token>)
    requires At(s, i, a + b + c)
    ensures At(s, i, a) && At(s, i + |a|, b) && At(s, i + |a| + |b|, c)
  {
    AtSplit(s, i, a + b, c);
    AtSplit(s, i, a, b);
  }

  lemma AtOne(s: seq<Token>, i: nat, t: Token)
    requires At(s, i, [t])
    ensures i < |s| && s[i] == t && TokenAt(s, i) == t
  {
  }

  /** The factor n as parse_factor meets it in s from index i: a
      parenthesised sum or product, a literal, or a minus before a factor.
      A parenthesis is recognised by its kind alone. */
  ghost predicate FactorAt(s: seq<Token>, i: nat, n: Node)
    decreases n, FactorRank(n)
  {
    && n.Node? && i + FactorLen(n) <= |s|
    && if IsBinary(n) then
         && (IsAddOp(n.token.id) || IsMulOp(n.token.id))
         && s[i].id == LParen && ExpressionAt(s, i + 1, n) && s[i + 1 + ExpressionLen(n)].id == RParen
       else
         && n.next == Nil && n.slot == -1 && s[i] == n.token
         && if n.right == Nil then n.token.id == Integer || n.token.id == Real
            else n.token.id == Minus && FactorAt(s, i + 1, n.right)
  }

  /** The term n as parse_term meets it in s from index i: a product of a
      term and a factor, or a factor. */
  ghost predicate TermAt(s: seq<Token>, i: nat, n: Node)
    decreases n, TermRank(n)
  {
    && n.Node? && i + TermLen(n) <= |s|
    && if IsBinary(n) && IsMulOp(n.token.id) then
         && n.next == Nil && n.slot == -1
         && TermAt(s, i, n.left) && s[i + TermLen(n.left)] == n.token
         && FactorAt(s, i + TermLen(n.left) + 1, n.right)
       else FactorAt(s, i, n)
  }

  /** The expression n as parse_expression meets it in s from index i: a
      sum of an expression and a term, or a term. */
  ghost predicate ExpressionAt(s: seq<Token>, i: nat, n: Node)
    decreases n, ExpressionRank(n)
  {
    && n.Node? && i + ExpressionLen(n) <= |s|
    && if IsBinary(n) && !IsMulOp(n.token.id) then
         && IsAddOp(n.token.id) && n.next == Nil && n.slot == -1
         && ExpressionAt(s, i, n.left) && s[i + ExpressionLen(n.left)] == n.token
         && TermAt(s, i + ExpressionLen(n.left) + 1, n.right)
       else TermAt(s, i, n)
  }

  /** Printed tokens are laid out as the parser meets them. */
  lemma {:induction false} PrintedFactor(s: seq<Token>, i: nat, n: Node)
    requires Shaped(n) && At(s, i, PrintFactor(n))
    ensures FactorAt(s, i, n)
    decreases n, FactorRank(n)
  {
    if IsBinary(n) {
      AtSplit3(s, i, [OpenParen], PrintExpression(n), [CloseParen]);
      AtOne(s, i, OpenParen);
      AtOne(s, i + 1 + |PrintExpression(n)|, CloseParen);
      PrintedExpression(s, i + 1, n);
    } else if n.right == Nil {
      AtOne(s, i, n.token);
    } else {
      AtSplit(s, i, [n.token], PrintFactor(n.right));
      AtOne(s, i, n.token);
      PrintedFactor(s, i + 1, n.right);
    }
  }

  lemma {:induction false} PrintedTerm(s: seq<Token>, i: nat, n: Node)
    requires Shaped(n) && At(s, i, PrintTerm(n))
    ensures TermAt(s, i, n)
    decreases n, TermRank(n)
  {
    if IsBinary(n) && IsMulOp(n.token.id) {
      AtSplit3(s, i, PrintTerm(n.left), [n.token], PrintFactor(n.right));
      AtOne(s, i + |PrintTerm(n.left)|, n.token);
      PrintedTerm(s, i, n.left);
      PrintedFactor(s, i + |PrintTerm(n.left)| + 1, n.right);
    } else {
      PrintedFactor(s, i, n);
    }
  }

  lemma {:induction false} PrintedExpression(s: seq<Token>, i: nat, n: Node)
    requires Shaped(n) && At(s, i, PrintExpression(n))
    ensures ExpressionAt(s, i, n)
    decreases n, ExpressionRank(n)
  {
    if IsBinary(n) && IsAddOp(n.token.id) {
      AtSplit3(s, i, PrintExpression(n.left), [n.token], PrintTerm(n.right));
      AtOne(s, i + |PrintExpression(n.left)|, n.token);
      PrintedExpression(s, i, n.left);
      PrintedTerm(s, i + |PrintExpression(n.left)| + 1, n.right);
    } else {
      PrintedTerm(s, i, n);
    }
  }

  /** A sequence occurs in itself from index 0. */
  lemma {:induction false} MatchesSuffix(s: seq<Token>, i: nat)
    requires i <= |s|
    ensures Matches(s, i, s[i..])
    decreases |s| - i
  {
    if i < |s| {
      assert s[i..][1..] == s[i + 1..];
      MatchesSuffix(s, i + 1);
    }
  }

  /** A node equals the inner node rebuilt from its own parts. */
  lemma Rebuilt(n: Node)
    requires Shaped(n)
    ensures n == Inner(n.token, n.left, n.right)
    ensures n.left == Nil && n.right == Nil ==> n == Leaf(n.token)
  {
  }

  /** One turn of the loop of parse_term. */
  lemma TermTailStep(s: seq<Token>, acc: Node, k: nat, r: Node, j: nat)
    requires k < |s| && IsMulOp(s[k].id) && Factor(s, k + 1) == Parsed(r, j)
    ensures TermTail(s, acc, k) == TermTail(s, Inner(s[k], acc, r), j)
  {
  }

  /** One turn of the loop of parse_expression. */
  lemma ExpressionTailStep(s: seq<Token>, acc: Node, k: nat, r: Node, j: nat)
    requires k < |s| && IsAddOp(s[k].id) && Term(s, k + 1) == Parsed(r, j)
    ensures ExpressionTail(s, acc, k) == ExpressionTail(s, Inner(s[k], acc, r), j)
  {
  }

  // ---------------------------------------------------------------------
  // One layer of a tree laid out in s, taken apart.

  lemma ParenParts(s: seq<Token>, i: nat, n: Node)
    requires IsBinary(n) && FactorAt(s, i, n)
    ensures FactorLen(n) == ExpressionLen(n) + 2 && i + FactorLen(n) <= |s|
    ensures s[i].id == LParen && ExpressionAt(s, i + 1, n)
    ensures s[i + 1 + ExpressionLen(n)].id == RParen
    ensures !IsMulOp(TokenAt(s, i + 1 + ExpressionLen(n)).id)
  {
  }

  lemma LeafParts(s: seq<Token>, i: nat, n: Node)
    requires !IsBinary(n) && n.Node? && n.right == Nil && FactorAt(s, i, n)
    ensures n == Leaf(n.token) && (n.token.id == Integer || n.token.id == Real)
    ensures FactorLen(n) == 1 && i < |s| && s[i] == n.token
  {
  }

  lemma NegationParts(s: seq<Token>, i: nat, n: Node)
    requires !IsBinary(n) && n.Node? && n.right != Nil && FactorAt(s, i, n)
    ensures n == Inner(n.token, Nil, n.right) && n.token.id == Minus
    ensures FactorLen(n) == 1 + FactorLen(n.right) && i + FactorLen(n) <= |s|
    ensures s[i] == n.token && FactorAt(s, i + 1, n.right)
  {
  }

  lemma ProductParts(s: seq<Token>, i: nat, n: Node)
    requires IsBinary(n) && IsMulOp(n.token.id) && TermAt(s, i, n)
    ensures n == Inner(n.token, n.left, n.right)
    ensures TermLen(n) == TermLen(n.left) + 1 + FactorLen(n.right) && i + TermLen(n) <= |s|
    ensures TermAt(s, i, n.left) && s[i + TermLen(n.left)] == n.token
    ensures FactorAt(s, i + TermLen(n.left) + 1, n.right)
  {
  }

  lemma SumParts(s: seq<Token>, i: nat, n: Node)
    requires IsBinary(n) && IsAddOp(n.token.id) && ExpressionAt(s, i, n)
    ensures n == Inner(n.token, n.left, n.right)
    ensures ExpressionLen(n) == ExpressionLen(n.left) + 1 + TermLen(n.right) && i + ExpressionLen(n) <= |s|
    ensures ExpressionAt(s, i, n.left) && s[i + ExpressionLen(n.left)] == n.token
    ensures !IsMulOp(TokenAt(s, i + ExpressionLen(n.left)).id)
    ensures TermAt(s, i + ExpressionLen(n.left) + 1, n.right)
  {
  }

  lemma TermIsFactor(s: seq<Token>, i: nat, n: Node)
    requires !(IsBinary(n) && IsMulOp(n.token.id)) && TermAt(s, i, n)
    ensures TermLen(n) == FactorLen(n) && FactorAt(s, i, n)
  {
  }

  lemma ExpressionIsTerm(s: seq<Token>, i: nat, n: Node)
    requires !(IsBinary(n) && IsAddOp(n.token.id)) && ExpressionAt(s, i, n)
    ensures ExpressionLen(n) == TermLen(n) && TermAt(s, i, n)
  {
  }

  // ---------------------------------------------------------------------
  // The parsing functions on one layer, given what the layers below read.

  lemma LeafChain(s: seq<Token>, i: nat, n: Node)
    requires n.Node? && n == Leaf(n.token) && (n.token.id == Integer || n.token.id == Real)
    requires i < |s| && s[i] == n.token
    ensures Factor(s, i) == Parsed(n, i + 1)
  {
  }

  lemma NegationChain(s: seq<Token>, i: nat, e: nat, n: Node)
    requires n.Node? && n == Inner(n.token, Nil, n.right) && n.token.id == Minus
    requires i < e <= |s| && s[i] == n.token
    requires Factor(s, i + 1) == Parsed(n.right, e)
    ensures Factor(s, i) == Parsed(n, e)
  {
  }

  lemma ParenChain(s: seq<Token>, i: nat, e: nat, n: Node)
    requires i < e < |s| && s[i].id == LParen && s[e].id == RParen
    requires Expression(s, i + 1) == ExpressionTail(s, n, e)
    ensures Factor(s, i) == Parsed(n, e + 1)
  {
    assert ExpressionTail(s, n, e) == Parsed(n, e);
  }

  lemma FactorChain(s: seq<Token>, i: nat, e: nat, n: Node)
    requires i < e <= |s| && Factor(s, i) == Parsed(n, e)
    ensures Term(s, i) == TermTail(s, n, e)
  {
  }

  lemma ProductChain(s: seq<Token>, i: nat, k: nat, e: nat, n: Node)
    requires n.Node? && n == Inner(n.token, n.left, n.right) && IsMulOp(n.token.id)
    requires i <= k < e <= |s| && s[k] == n.token
    requires Term(s, i) == TermTail(s, n.left, k)
    requires Factor(s, k + 1) == Parsed(n.right, e)
    ensures Term(s, i) == TermTail(s, n, e)
  {
    TermTailStep(s, n.left, k, n.right, e);
  }

  lemma TermChain(s: seq<Token>, i: nat, e: nat, n: Node)
    requires i < e <= |s| && !IsMulOp(TokenAt(s, e).id)
    requires Term(s, i) == TermTail(s, n, e)
    ensures Expression(s, i) == ExpressionTail(s, n, e)
  {
    assert TermTail(s, n, e) == Parsed(n, e);
  }

  lemma SumChain(s: seq<Token>, i: nat, k: nat, e: nat, n: Node)
    requires n.Node? && n == Inner(n.token, n.left, n.right) && IsAddOp(n.token.id)
    requires i <= k < e <= |s| && s[k] == n.token && !IsMulOp(TokenAt(s, e).id)
    requires Expression(s, i) == ExpressionTail(s, n.left, k)
    requires Term(s, k + 1) == TermTail(s, n.right, e)
    ensures Expression(s, i) == ExpressionTail(s, n, e)
  {
    assert TermTail(s, n.right, e) == Parsed(n.right, e);
    ExpressionTailStep(s, n.left, k, n.right, e);
  }

  // ---------------------------------------------------------------------
  // The round trip, layer by layer.

  /** parse_factor reads a factor laid out in s back. */
  lemma {:induction false} FactorRoundTrip(s: seq<Token>, i: nat, n: Node)
    requires FactorAt(s, i, n)
    ensures Factor(s, i) == Parsed(n, i + FactorLen(n))
    decreases n, FactorRank(n), 2
  {
    if IsBinary(n) {
      ParenRoundTrip(s, i, n);
    } else if n.right == Nil {
      LeafParts(s, i, n);
      LeafChain(s, i, n);
    } else {
      NegationRoundTrip(s, i, n);
    }
  }

  lemma {:induction false} ParenRoundTrip(s: seq<Token>, i: nat, n: Node)
    requires IsBinary(n) && FactorAt(s, i, n)
    ensures Factor(s, i) == Parsed(n, i + FactorLen(n))
    decreases n, FactorRank(n), 1
  {
    ParenParts(s, i, n);
    ExpressionPrefix(s, i + 1, n);
    ParenChain(s, i, i + 1 + ExpressionLen(n), n);
  }

  lemma {:induction false} NegationRoundTrip(s: seq<Token>, i: nat, n: Node)
    requires !IsBinary(n) && n.Node? && n.right != Nil && FactorAt(s, i, n)
    ensures Factor(s, i) == Parsed(n, i + FactorLen(n))
    decreases n, FactorRank(n), 1
  {
    NegationParts(s, i, n);
    FactorRoundTrip(s, i + 1, n.right);
    NegationChain(s, i, i + FactorLen(n), n);
  }

  /** parse_term reads a term laid out in s and stops at the next token
      with the whole term folded. */
  lemma {:induction false} TermPrefix(s: seq<Token>, i: nat, n: Node)
    requires TermAt(s, i, n)
    ensures Term(s, i) == TermTail(s, n, i + TermLen(n))
    decreases n, TermRank(n), 2
  {
    if IsBinary(n) && IsMulOp(n.token.id) {
      ProductPrefix(s, i, n);
    } else {
      TermIsFactor(s, i, n);
      FactorRoundTrip(s, i, n);
      FactorChain(s, i, i + TermLen(n), n);
    }
  }

  lemma {:induction false} ProductPrefix(s: seq<Token>, i: nat, n: Node)
    requires IsBinary(n) && IsMulOp(n.token.id) && TermAt(s, i, n)
    ensures Term(s, i) == TermTail(s, n, i + TermLen(n))
    decreases n, TermRank(n), 1
  {
    ProductParts(s, i, n);
    TermPrefix(s, i, n.left);
    FactorRoundTrip(s, i + TermLen(n.left) + 1, n.right);
    ProductChain(s, i, i + TermLen(n.left), i + TermLen(n), n);
  }

  /** parse_expression reads an expression laid out in s and stops at the
      next token with the whole expression folded, provided that token does
      not extend the last term. */
  lemma {:induction false} ExpressionPrefix(s: seq<Token>, i: nat, n: Node)
    requires ExpressionAt(s, i, n)
    requires !IsMulOp(TokenAt(s, i + ExpressionLen(n)).id)
    ensures Expression(s, i) == ExpressionTail(s, n, i + ExpressionLen(n))
    decreases n, ExpressionRank(n), 2
  {
    if IsBinary(n) && IsAddOp(n.token.id) {
      SumPrefix(s, i, n);
    } else {
      ExpressionIsTerm(s, i, n);
      TermPrefix(s, i, n);
      TermChain(s, i, i + ExpressionLen(n), n);
    }
  }

  lemma {:induction false} SumPrefix(s: seq<Token>, i: nat, n: Node)
    requires IsBinary(n) && IsAddOp(n.token.id) && ExpressionAt(s, i, n)
    requires !IsMulOp(TokenAt(s, i + ExpressionLen(n)).id)
    ensures Expression(s, i) == ExpressionTail(s, n, i + ExpressionLen(n))
    decreases n, ExpressionRank(n), 1
  {
    SumParts(s, i, n);
    ExpressionPrefix(s, i, n.left);
    TermPrefix(s, i + ExpressionLen(n.left) + 1, n.right);
    SumChain(s, i, i + ExpressionLen(n.left), i + ExpressionLen(n), n);
  }

  /** Round trip: a printed expression followed by any token that is not an
      arithmetic operator parses back to the same tree, consuming exactly
      the printed tokens. */
  lemma ExpressionRoundTrip(s: seq<Token>, i: nat, n: Node)
    requires Shaped(n) && At(s, i, PrintExpression(n))
    requires !IsAddOp(TokenAt(s, i + |PrintExpression(n)|).id)
    requires !IsMulOp(TokenAt(s, i + |PrintExpression(n)|).id)
    ensures Expression(s, i) == Parsed(n, i + |PrintExpression(n)|)
  {
    PrintedExpression(s, i, n);
    ExpressionPrefix(s, i, n);
  }

  /** A whole token stream that is a printed expression parses to its tree. */
  lemma ParseOfPrint(n: Node)
    requires Shaped(n)
    ensures Expression(PrintExpression(n), 0) == Parsed(n, |PrintExpression(n)|)
  {
    MatchesSuffix(PrintExpression(n), 0);
    assert PrintExpression(n)[0..] == PrintExpression(n);
    ExpressionRoundTrip(PrintExpression(n), 0, n);
  }

  /** A literal token. */
  predicate IsLiteral(t: Token) { t.id == Integer || t.id == Real }

  /** A literal prints as itself at every level. */
  lemma PrintLeaf(t: Token)
    requires IsLiteral(t)
    ensures Shaped(Leaf(t))
    ensures PrintFactor(Leaf(t)) == [t] && PrintTerm(Leaf(t)) == [t] && PrintExpression(Leaf(t)) == [t]
  {
  }

  /** a - b + c groups to the left: ((a - b) + c). */
  lemma LeftAssociative(a: Token, o1: Token, b: Token, o2: Token, c: Token)
    requires IsLiteral(a) && IsLiteral(b) && IsLiteral(c)
    requires IsAddOp(o1.id) && IsAddOp(o2.id)
    ensures Expression([a, o1, b, o2, c], 0) == Parsed(Inner(o2, Inner(o1, Leaf(a), Leaf(b)), Leaf(c)), 5)
  {
    PrintLeaf(a); PrintLeaf(b); PrintLeaf(c);
    var l := Inner(o1, Leaf(a), Leaf(b));
    var n := Inner(o2, l, Leaf(c));
    assert PrintExpression(l) == [a, o1, b];
    assert PrintExpression(n) == [a, o1, b] + [o2] + [c] == [a, o1, b, o2, c];
    ParseOfPrint(n);
  }

  /** a + b * c binds the product first: (a + (b * c)). */
  lemma ProductBindsTighter(a: Token, o1: Token, b: Token, o2: Token, c: Token)
    requires IsLiteral(a) && IsLiteral(b) && IsLiteral(c)
    requires IsAddOp(o1.id) && IsMulOp(o2.id)
    ensures Expression([a, o1, b, o2, c], 0) == Parsed(Inner(o1, Leaf(a), Inner(o2, Leaf(b), Leaf(c))), 5)
  {
    PrintLeaf(a); PrintLeaf(b); PrintLeaf(c);
    var r := Inner(o2, Leaf(b), Leaf(c));
    var n := Inner(o1, Leaf(a), r);
    assert PrintTerm(r) == [b, o2, c];
    assert PrintExpression(n) == [a] + [o1] + [b, o2, c] == [a, o1, b, o2, c];
    ParseOfPrint(n);
  }

  /** - - a is a negation of a negation. */
  lemma NestedNegation(m1: Token, m2: Token, a: Token)
    requires m1.id == Minus && m2.id == Minus && IsLiteral(a)
    ensures Expression([m1, m2, a], 0) == Parsed(Inner(m1, Nil, Inner(m2, Nil, Leaf(a))), 3)
  {
    PrintLeaf(a);
    var r := Inner(m2, Nil, Leaf(a));
    var n := Inner(m1, Nil, r);
    assert PrintFactor(r) == [m2, a];
    assert PrintFactor(n) == [m1] + [m2, a] == [m1, m2, a];
    assert PrintExpression(n) == PrintTerm(n) == PrintFactor(n);
    ParseOfPrint(n);
  }

  // ---------------------------------------------------------------------
  // Every successful parse builds a shaped tree.

  lemma {:induction false} FactorShaped(s: seq<Token>, i: nat)
    requires i <= |s|
    ensures Factor(s, i).Parsed? ==> Shaped(Factor(s, i).node)
    decreases |s| - i, 1
  {
    var t := TokenAt(s, i);
    if t.id == LParen {
      ExpressionShaped(s, i + 1);
    } else if t.id == Minus {
      FactorShaped(s, i + 1);
    }
  }

  lemma {:induction false} TermTailShaped(s: seq<Token>, acc: Node, i: nat)
    requires i <= |s| && Shaped(acc)
    ensures TermTail(s, acc, i).Parsed? ==> Shaped(TermTail(s, acc, i).node)
    decreases |s| - i, 0
  {
    var op := TokenAt(s, i);
    if IsMulOp(op.id) {
      FactorShaped(s, i + 1);
      match Factor(s, i + 1)
      case ParseError =>
      case Parsed(r, j) => TermTailShaped(s, Inner(op, acc, r), j);
    }
  }

  lemma {:induction false} TermShaped(s: seq<Token>, i: nat)
    requires i <= |s|
    ensures Term(s, i).Parsed? ==> Shaped(Term(s, i).node)
    decreases |s| - i, 2
  {
    FactorShaped(s, i);
    match Factor(s, i)
    case ParseError =>
    case Parsed(n, j) => TermTailShaped(s, n, j);
  }

  lemma {:induction false} ExpressionTailShaped(s: seq<Token>, acc: Node, i: nat)
    requires i <= |s| && Shaped(acc)
    ensures ExpressionTail(s, acc, i).Parsed? ==> Shaped(ExpressionTail(s, acc, i).node)
    decreases |s| - i, 0
  {
    var op := TokenAt(s, i);
    if IsAddOp(op.id) {
      TermShaped(s, i + 1);
      match Term(s, i + 1)
      case ParseError =>
      case Parsed(r, j) => ExpressionTailShaped(s, Inner(op, acc, r), j);
    }
  }

  /** parse_expression only ever builds leaves, negations and binary
      arithmetic nodes. */
  lemma {:induction false} ExpressionShaped(s: seq<Token>, i: nat)
    requires i <= |s|
    ensures Expression(s, i).Parsed? ==> Shaped(Expression(s, i).node)
    decreases |s| - i, 3
  {
    TermShaped(s, i);
    match Term(s, i)
    case ParseError =>
    case Parsed(n, j) => ExpressionTailShaped(s, n, j);
  }

  /** A factor cannot start with anything but (, - or a literal: in
      particular not at the end of the input. */
  lemma FactorNeedsStart(s: seq<Token>, i: nat)
    requires i <= |s|
    requires TokenAt(s, i).id !in {LParen, Minus, Integer, Real}
    ensures Factor(s, i) == ParseError && Expression(s, i) == ParseError
  {
  }
}
