/** The recursive-descent parser of c_tree.cpp (class parse), over the
    sequence of tokens the lexer yields. Once the sequence is exhausted the
    lexer keeps yielding TOKEN_EOF, which TokenAt reproduces. */
module Parser {
  import opened Tokens
  import opened Ast

  /** The token the lexer yields as the i-th one. */
  function TokenAt(s: seq<Token>, i: nat): (t: Token)
    ensures i >= |s| ==> t.id == Eof
    ensures i < |s| ==> t == s[i]
  {
    if i < |s| then s[i] else Token(Eof, 0, 0, "")
  }

  /** A parse that succeeded with a tree and the index of the next token,
      or one that stopped the program (parse::error, exit). */
  datatype Parsed = Parsed(node: Node, next: nat) | ParseError

  predicate IsAddOp(id: TokenId) { id == Plus || id == Minus }
  predicate IsMulOp(id: TokenId) { id == Mult || id == Div || id == Mod }

  /** parse_expression from token i: a term, then the folding loop. */
  function Expression(s: seq<Token>, i: nat): (r: Parsed)
    requires i <= |s|
    ensures r.Parsed? ==> i < r.next <= |s|
    decreases |s| - i, 3
  {
    match Term(s, i)
    case ParseError => ParseError
    case Parsed(n, j) => ExpressionTail(s, n, j)
  }

  /** The loop of parse_expression with the tree folded so far. */
  function ExpressionTail(s: seq<Token>, acc: Node, i: nat): (r: Parsed)
    requires i <= |s|
    ensures r.Parsed? ==> i <= r.next <= |s|
    decreases |s| - i, 0
  {
    var op := TokenAt(s, i);
    if IsAddOp(op.id) then
      match Term(s, i + 1)
      case ParseError => ParseError
      case Parsed(r, j) => ExpressionTail(s, Inner(op, acc, r), j)
    else Parsed(acc, i)
  }

  /** parse_term from token i: a factor, then the folding loop. */
  function Term(s: seq<Token>, i: nat): (r: Parsed)
    requires i <= |s|
    ensures r.Parsed? ==> i < r.next <= |s|
    decreases |s| - i, 2
  {
    match Factor(s, i)
    case ParseError => ParseError
    case Parsed(n, j) => TermTail(s, n, j)
  }

  /** The loop of parse_term with the tree folded so far. */
  function TermTail(s: seq<Token>, acc: Node, i: nat): (r: Parsed)
    requires i <= |s|
    ensures r.Parsed? ==> i <= r.next <= |s|
    decreases |s| - i, 0
  {
    var op := TokenAt(s, i);
    if IsMulOp(op.id) then
      match Factor(s, i + 1)
      case ParseError => ParseError
      case Parsed(r, j) => TermTail(s, Inner(op, acc, r), j)
    else Parsed(acc, i)
  }

  /** parse_factor from token i: a parenthesised expression (no node of its
      own), a negation (a minus node without a left operand), or a literal
      leaf; anything else, TOKEN_EOF included, stops the program. */
  function Factor(s: seq<Token>, i: nat): (r: Parsed)
    requires i <= |s|
    ensures r.Parsed? ==> i < r.next <= |s|
    decreases |s| - i, 1
  {
    var t := TokenAt(s, i);
    if t.id == LParen then
      match Expression(s, i + 1)
      case ParseError => ParseError
      case Parsed(n, j) => if TokenAt(s, j).id == RParen then Parsed(n, j + 1) else ParseError
    else if t.id == Minus then
      match Factor(s, i + 1)
      case ParseError => ParseError
      case Parsed(n, j) => Parsed(Inner(t, Nil, n), j)
    else if t.id == Integer || t.id == Real then Parsed(Leaf(t), i + 1)
    else ParseError
  }

  /** The parser object: the token stream, the index of the current token and
      the current token itself. */
  class Parse {
    const stream: seq<Token>
    var pos: nat
    var current: Token

    ghost predicate Valid()
      reads this
    {
      pos <= |stream| && current == TokenAt(stream, pos)
    }

    /** parse(): read the first token. */
    constructor (stream: seq<Token>)
      ensures Valid() && this.stream == stream && pos == 0
    {
      this.stream := stream;
      pos := 0;
      current := TokenAt(stream, 0);
    }

    /** The outcome of a parsing method as a Parsed value. */
    function Outcome(r: Result<Node>): Parsed
      reads this
    {
      if r.Success? then Parsed(r.value, pos) else ParseError
    }

    /** next_token: the lexer's next token becomes current. */
    method NextToken()
      requires Valid()
      modifies this
      ensures Valid()
      ensures pos == if old(pos) < |stream| then old(pos) + 1 else old(pos)
    {
      if pos < |stream| {
        pos := pos + 1;
      }
      current := TokenAt(stream, pos);
    }

    /** consume: advance when the current token has kind id; at TOKEN_EOF or
        on a mismatch the program stops, reported here as false. */
    method Consume(id: TokenId) returns (ok: bool)
      requires Valid()
      modifies this
      ensures Valid()
      ensures ok <==> old(current).id != Eof && old(current).id == id
      ensures pos == if ok then old(pos) + 1 else old(pos)
    {
      if current.id == Eof {
        return false;
      }
      if current.id == id {
        NextToken();
        return true;
      }
      return false;
    }

    /** parse_expression */
    method ParseExpression() returns (r: Result<Node>)
      requires Valid()
      modifies this
      ensures Valid()
      ensures Outcome(r) == Expression(stream, old(pos))
      decreases |stream| - pos, 3
    {
      var first := ParseTerm();
      if first.Failure? {
        return Failure;
      }
      var node := first.value;
      while current.id == Plus || current.id == Minus
        invariant Valid() && old(pos) < pos
        invariant ExpressionTail(stream, node, pos) == Expression(stream, old(pos))
        decreases |stream| - pos
      {
        var op := current;
        var ok := Consume(op.id);
        assert ok;
        var right := ParseTerm();
        if right.Failure? {
          return Failure;
        }
        node := Inner(op, node, right.value);
      }
      return Success(node);
    }

    /** parse_term */
    method ParseTerm() returns (r: Result<Node>)
      requires Valid()
      modifies this
      ensures Valid()
      ensures Outcome(r) == Term(stream, old(pos))
      decreases |stream| - pos, 2
    {
      var first := ParseFactor();
      if first.Failure? {
        return Failure;
      }
      var node := first.value;
      while current.id == Mult || current.id == Div || current.id == Mod
        invariant Valid() && old(pos) < pos
        invariant TermTail(stream, node, pos) == Term(stream, old(pos))
        decreases |stream| - pos
      {
        var op := current;
        var ok := Consume(op.id);
        assert ok;
        var right := ParseFactor();
        if right.Failure? {
          return Failure;
        }
        node := Inner(op, node, right.value);
      }
      return Success(node);
    }

    /** parse_factor */
    method ParseFactor() returns (r: Result<Node>)
      requires Valid()
      modifies this
      ensures Valid()
      ensures Outcome(r) == Factor(stream, old(pos))
      decreases |stream| - pos, 1
    {
      if current.id == LParen {
        var ok := Consume(current.id);
        var inner := ParseExpression();
        if inner.Failure? {
          return Failure;
        }
        ok := Consume(RParen);
        if !ok {
          return Failure;
        }
        return inner;
      } else if current.id == Minus {
        var op := current;
        var ok := Consume(Minus);
        var right := ParseFactor();
        if right.Failure? {
          return Failure;
        }
        return Success(Inner(op, Nil, right.value));
      } else if current.id == Integer || current.id == Real {
        var leaf := Leaf(current);
        var ok := Consume(current.id);
        return Success(leaf);
      }
      return Failure;
    }
  }
}
