/** The lexer of lex.cpp: get_token classifies one token from the reader state.
    Besides the reader's own bookkeeping, get_token bumps the shared line and
    column counters itself while skipping blanks, newlines and comments. */
module Lexer {
  import opened Tokens
  import opened SourceBuffer

  predicate IsBlank(ch: char) { ch == ' ' || ch == '\t' || ch == '\r' }
  /** isalpha, isdigit and isalnum in the C locale. */
  predicate IsAlpha(ch: char) { 'a' <= ch <= 'z' || 'A' <= ch <= 'Z' }
  predicate IsDigit(ch: char) { '0' <= ch <= '9' }
  predicate IsWordChar(ch: char) { IsAlpha(ch) || IsDigit(ch) || ch == '_' }

  /** A character that get_token skips before a token. */
  predicate IsTrivia(ch: char) { IsBlank(ch) || ch == '\n' || ch == '#' }

  /** get_token's own extra column bump after a consumed character. */
  function Bump(c: Cursor): Cursor { c.(col := c.col + 1) }

  /** get_token's own line bump on a newline. */
  function NewLine(c: Cursor): Cursor { c.(line := c.line + 1, col := 1) }

  /** Where skipping stopped: at a character that is not trivia (or the end),
      or at the end of the text inside a comment. */
  datatype Skipped = Reached(at: Cursor) | EofInComment(at: Cursor)

  /** The skipping loop of get_token, from cursor c. */
  function SkipTrivia(text: seq<char>, c: Cursor): (r: Skipped)
    requires c.pos <= |text|
    ensures c.pos <= r.at.pos <= |text|
    ensures r.Reached? ==> r.at.pos == |text| || !IsTrivia(text[r.at.pos])
    ensures r.EofInComment? ==> r.at.pos == |text|
    ensures r.Reached? && r.at.pos == c.pos ==> r.at == c
    decreases |text| - c.pos
  {
    if c.pos == |text| then Reached(c)
    else
      var ch := text[c.pos];
      if IsBlank(ch) then SkipTrivia(text, Bump(Advance(text, c)))
      else if ch == '\n' then SkipTrivia(text, NewLine(Advance(text, c)))
      else if ch == '#' then SkipComment(text, Bump(Advance(text, c)))
      else Reached(c)
  }

  /** The inner loop of get_token that reads a comment up to its newline. */
  function SkipComment(text: seq<char>, c: Cursor): (r: Skipped)
    requires c.pos <= |text|
    ensures c.pos <= r.at.pos <= |text|
    ensures r.Reached? ==> r.at.pos == |text| || !IsTrivia(text[r.at.pos])
    ensures r.EofInComment? ==> r.at.pos == |text|
    ensures r.Reached? ==> r.at.pos > c.pos
    decreases |text| - c.pos
  {
    if c.pos == |text| then EofInComment(c)
    else
      var a := Bump(Advance(text, c));
      if text[c.pos] == '\n' then SkipTrivia(text, NewLine(a))
      else SkipComment(text, a)
  }

  /** The outcome of one get_token call: the token written to the caller, the
      returned status, and the reader's cursor afterwards. */
  datatype Lexed = Lexed(token: Token, status: Error, after: Cursor)

  /** A token recognised successfully: it starts at d, the status reports the
      final cursor. */
  function Done(d: Cursor, id: TokenId, val: string, after: Cursor): Lexed {
    Lexed(Token(id, d.line, d.col, val), Error(Ok, after.line, after.col), after)
  }

  /** An invalid character: the token keeps the kind TOKEN_NULL and no text. */
  function Invalid(d: Cursor, after: Cursor): Lexed {
    Lexed(Token(Null, d.line, d.col, ""), Error(InvalidChar, after.line, after.col), after)
  }

  /** Whether the one-character lookahead at cursor a sees ch. */
  predicate NextIs(text: seq<char>, a: Cursor, ch: char) {
    a.pos < |text| && text[a.pos] == ch
  }

  /** The token kind of a letter-initial word: one of the nine keywords, or
      an identifier. */
  function KeywordId(w: string): TokenId {
    if w == "true" then True
    else if w == "false" then False
    else if w == "mod" then Mod
    else if w == "if" then If
    else if w == "else" then Else
    else if w == "while" then While
    else if w == "print" then Print
    else if w == "read" then Read
    else if w == "int4" then Int4
    else Ident
  }

  /** The decoding of the character after a backslash in a string literal;
      an unknown escape contributes nothing. */
  function Unescape(e: char): string {
    if e == 'n' then "\n"
    else if e == 't' then "\t"
    else if e == '\\' then "\\"
    else if e == '"' then "\""
    else ""
  }

  /** The text read so far of a string literal and the cursor. */
  datatype Scanned = Scanned(val: string, at: Cursor)

  /** The string loop of get_token from cursor c, with acc read so far. It
      stops after the closing quote, at the end of the text, or at a
      backslash that is the last character. */
  function ScanString(text: seq<char>, c: Cursor, acc: string): (r: Scanned)
    requires c.pos <= |text|
    ensures c.pos <= r.at.pos <= |text|
    decreases |text| - c.pos
  {
    if c.pos == |text| then Scanned(acc, c)
    else
      var ch := text[c.pos];
      var a := Advance(text, c);
      if ch == '"' then Scanned(acc, a)
      else if ch == '\\' then
        if a.pos == |text| then Scanned(acc, a)
        else ScanString(text, Advance(text, a), acc + Unescape(text[a.pos]))
      else ScanString(text, a, acc + [ch])
  }

  /** The end of the run of characters satisfying inRun that starts at p. */
  function RunEnd(text: seq<char>, p: nat, inRun: char -> bool): (e: nat)
    requires p <= |text|
    ensures p <= e <= |text|
    ensures forall k :: p <= k < e ==> inRun(text[k])
    ensures e < |text| ==> !inRun(text[e])
    decreases |text| - p
  {
    if p == |text| || !inRun(text[p]) then p else RunEnd(text, p + 1, inRun)
  }

  /** The cursor after n successful advances. */
  function Walk(text: seq<char>, c: Cursor, n: nat): (r: Cursor)
    requires c.pos + n <= |text|
    ensures r.pos == c.pos + n
  {
    if n == 0 then c else Advance(text, Walk(text, c, n - 1))
  }

  /** A word or number whose first character is at d: the rest of the run
      is read until a character outside it (consumed) or the end (no change),
      and then one character is given back unconditionally. */
  function RunWord(text: seq<char>, d: Cursor, inRun: char -> bool): (r: Scanned)
    requires d.pos < |text|
  {
    var a := Advance(text, d);
    var e := RunEnd(text, a.pos, inRun);
    Scanned(text[d.pos..e], Retreat(text, Advance(text, Walk(text, a, e - a.pos))))
  }

  /** get_token once skipping has stopped at a character at cursor d. */
  function ScanToken(text: seq<char>, d: Cursor): (r: Lexed)
    requires d.pos < |text|
  {
    var ch := text[d.pos];
    var a := Advance(text, d);
    match ch
    case '+' => Done(d, Plus, "+", a)
    case '-' => if NextIs(text, a, '-') then Invalid(d, a) else Done(d, Minus, "-", a)
    case '*' => Done(d, Mult, "", a)
    case '/' => Done(d, Div, "", a)
    case '^' => Done(d, Exp, "", a)
    case '<' =>
      if NextIs(text, a, '=') then Done(d, LessEq, "<=", Advance(text, a))
      else if NextIs(text, a, '-') then Done(d, Assign, "<-", Advance(text, a))
      else Done(d, Less, "<", a)
    case '>' => if NextIs(text, a, '=') then Done(d, GreaterEq, ">=", Advance(text, a)) else Done(d, Greater, ">", a)
    case '!' => if NextIs(text, a, '=') then Done(d, NotEqual, "!=", Advance(text, a)) else Done(d, Not, "!", a)
    case '(' => Done(d, LParen, "(", a)
    case ')' => Done(d, RParen, ")", a)
    case '{' => Done(d, LBrace, "", a)
    case '}' => Done(d, RBrace, "", a)
    case '[' => Done(d, LBracket, "", a)
    case ']' => Done(d, RBracket, "", a)
    case '&' => Done(d, And, "&", a)
    case '|' => Done(d, Or, "|", a)
    case '.' => Done(d, Dot, "", a)
    case '@' => Done(d, At, "", a)
    case ':' => Done(d, Colon, "", a)
    case ';' => Done(d, Semicolon, "", a)
    case ',' => Done(d, Comma, "", a)
    case '"' =>
      var s := ScanString(text, a, "");
      Lexed(Token(String, d.line, d.col, s.val), Error(Ok, d.line, d.col), s.at)
    case '~' => if NextIs(text, a, '=') then Done(d, NotEqual, "~=", Advance(text, a)) else Invalid(d, a)
    case '=' => Done(d, Equal, "=", a)
    case _ => if IsRunStart(ch) then ScanRun(text, d) else Invalid(d, a)
  }

  /** A character that starts a word or a number. */
  predicate IsRunStart(ch: char) { IsAlpha(ch) || IsDigit(ch) || ch == '_' }

  /** A word, number or underscore identifier starting at d. */
  function ScanRun(text: seq<char>, d: Cursor): (r: Lexed)
    requires d.pos < |text| && IsRunStart(text[d.pos])
  {
    var ch := text[d.pos];
    if IsAlpha(ch) then
      var s := RunWord(text, d, IsWordChar);
      Done(d, KeywordId(s.val), s.val, s.at)
    else if IsDigit(ch) then
      var s := RunWord(text, d, IsDigit);
      Done(d, Integer, s.val, s.at)
    else
      var s := RunWord(text, d, IsWordChar);
      Done(d, Ident, s.val, s.at)
  }

  /** get_token from cursor c. */
  function Lex(text: seq<char>, c: Cursor): (r: Lexed)
    requires c.pos <= |text|
  {
    match SkipTrivia(text, c)
    case EofInComment(d) => Lexed(Token(Eof, d.line, d.col, ""), Error(Ok, d.line, d.col), d)
    case Reached(d) =>
      if d.pos == |text| then Lexed(Token(Eof, d.line, d.col, ""), Error(Ok, d.line, d.col), d)
      else ScanToken(text, d)
  }

  // ---------------------------------------------------------------------
  // The imperative lexer over the reader.

  /** get_token: skip blanks, newlines and comments, then read one token. */
  method GetToken(b: Buffer) returns (t: Token, status: Error)
    requires b.Valid()
    modifies b
    ensures b.Valid()
    ensures Lexed(t, status, b.Cur()) == Lex(b.text, old(b.Cur()))
  {
    t := Token(Null, b.line, b.col, "");
    while true
      invariant b.Valid()
      invariant SkipTrivia(b.text, old(b.Cur())) == SkipTrivia(b.text, b.Cur())
      decreases |b.text| - b.pos
    {
      var e, c := b.PeekNextChar();
      if e != 0 {
        break;
      }
      if IsBlank(c) {
        var s, ch := b.GetNextChar();
        b.col := b.col + 1;
      } else if c == '\n' {
        var s, ch := b.GetNextChar();
        b.line := b.line + 1;
        b.col := 1;
      } else if c == '#' {
        ghost var p0 := b.pos;
        var s, ch := b.GetNextChar();
        b.col := b.col + 1;
        while true
          invariant b.Valid() && b.pos > p0
          invariant SkipTrivia(b.text, old(b.Cur())) == SkipComment(b.text, b.Cur())
          decreases |b.text| - b.pos
        {
          var r, cc := b.GetNextChar();
          if r != 0 {
            t := Token(Eof, b.line, b.col, "");
            return t, Error(Ok, b.line, b.col);
          }
          b.col := b.col + 1;
          if cc == '\n' {
            b.line := b.line + 1;
            b.col := 1;
            break;
          }
        }
      } else {
        break;
      }
    }
    t := Token(Null, b.line, b.col, "");
    var e, c := b.PeekNextChar();
    if e != 0 {
      t := Token(Eof, b.line, b.col, "");
      return t, Error(Ok, b.line, b.col);
    }
    t, status := ReadToken(b);
  }

  /** The part of get_token after skipping, at a character. A successful
      peek guarantees that the following read succeeds, so the source's
      second end check cannot fire and is not repeated here. */
  method ReadToken(b: Buffer) returns (t: Token, status: Error)
    requires b.Valid() && b.pos < |b.text|
    modifies b
    ensures b.Valid()
    ensures Lexed(t, status, b.Cur()) == ScanToken(b.text, old(b.Cur()))
  {
    var d := b.Cur();
    var line, col := b.line, b.col;
    var s, ch := b.GetNextChar();
    t := Token(Null, line, col, "");
    match ch {
    case '+' => t := t.(id := Plus, val := "+");
    case '-' =>
      var ps, pc := b.PeekNextChar();
      if ps == 0 && pc == '-' {
        return t, Error(InvalidChar, b.line, b.col);
      }
      t := t.(id := Minus, val := "-");
    case '*' => t := t.(id := Mult);
    case '/' => t := t.(id := Div);
    case '^' => t := t.(id := Exp);
    case '<' =>
      t := t.(id := Less, val := "<");
      var ps, pc := b.PeekNextChar();
      if ps == 0 && pc == '=' {
        s, ch := b.GetNextChar();
        t := t.(id := LessEq, val := "<=");
      } else {
        ps, pc := b.PeekNextChar();
        if ps == 0 && pc == '-' {
          s, ch := b.GetNextChar();
          t := t.(id := Assign, val := "<-");
        }
      }
    case '>' =>
      t := t.(id := Greater, val := ">");
      var ps, pc := b.PeekNextChar();
      if ps == 0 && pc == '=' {
        s, ch := b.GetNextChar();
        t := t.(id := GreaterEq, val := ">=");
      }
    case '!' =>
      t := t.(id := Not, val := "!");
      var ps, pc := b.PeekNextChar();
      if ps == 0 && pc == '=' {
        s, ch := b.GetNextChar();
        t := t.(id := NotEqual, val := "!=");
      }
    case '(' => t := t.(id := LParen, val := "(");
    case ')' => t := t.(id := RParen, val := ")");
    case '{' => t := t.(id := LBrace);
    case '}' => t := t.(id := RBrace);
    case '[' => t := t.(id := LBracket);
    case ']' => t := t.(id := RBracket);
    case '&' => t := t.(id := And, val := "&");
    case '|' => t := t.(id := Or, val := "|");
    case '.' => t := t.(id := Dot);
    case '@' => t := t.(id := At);
    case ':' => t := t.(id := Colon);
    case ';' => t := t.(id := Semicolon);
    case ',' => t := t.(id := Comma);
    case '"' =>
      var v := ReadString(b);
      return t.(id := String, val := v), Error(Ok, line, col);
    case '~' =>
      var ps, pc := b.PeekNextChar();
      if ps == 0 && pc == '=' {
        s, ch := b.GetNextChar();
        t := t.(id := NotEqual, val := "~=");
      } else {
        return t, Error(InvalidChar, b.line, b.col);
      }
    case '=' => t := t.(id := Equal, val := "=");
    case _ =>
      if IsRunStart(ch) {
        t, status := ReadRunToken(b, d, ch);
        return;
      }
      return t, Error(InvalidChar, b.line, b.col);
    }
    status := Error(Ok, b.line, b.col);
  }

  /** The word and number branches of get_token, after the first character
      ch, read from cursor d. */
  method ReadRunToken(b: Buffer, d: Cursor, ch: char) returns (t: Token, status: Error)
    requires b.Valid() && d.pos < |b.text| && b.text[d.pos] == ch && IsRunStart(ch)
    requires b.Cur() == Advance(b.text, d)
    modifies b
    ensures b.Valid()
    ensures Lexed(t, status, b.Cur()) == ScanRun(b.text, d)
  {
    assert b.pos == d.pos + 1;
    if IsAlpha(ch) {
      var w := ReadRun(b, d, ch, IsWordChar);
      t := Token(KeywordId(w), d.line, d.col, w);
    } else if IsDigit(ch) {
      var w := ReadRun(b, d, ch, IsDigit);
      t := Token(Integer, d.line, d.col, w);
    } else {
      var w := ReadRun(b, d, ch, IsWordChar);
      t := Token(Ident, d.line, d.col, w);
    }
    status := Error(Ok, b.line, b.col);
  }

  /** The string loop: read up to and including the closing quote. */
  method ReadString(b: Buffer) returns (val: string)
    requires b.Valid()
    modifies b
    ensures b.Valid()
    ensures ScanString(b.text, old(b.Cur()), "") == Scanned(val, b.Cur())
  {
    val := "";
    while true
      invariant b.Valid()
      invariant ScanString(b.text, old(b.Cur()), "") == ScanString(b.text, b.Cur(), val)
      decreases |b.text| - b.pos
    {
      var ps, pc := b.PeekNextChar();
      if ps != 0 {
        break;
      }
      var s, ch := b.GetNextChar();
      if ch == '"' {
        break;
      } else if ch == '\\' {
        var qs, qc := b.PeekNextChar();
        if qs != 0 {
          break;
        }
        var s2, e := b.GetNextChar();
        match e
        case 'n' => val := val + "\n";
        case 't' => val := val + "\t";
        case '\\' => val := val + "\\";
        case '"' => val := val + "\"";
        case _ => assert val + Unescape(e) == val;
      } else {
        val := val + [ch];
      }
    }
  }

  /** The loop of a word or number whose first character, just read, is
      first: read while the characters are in the run, then give one
      character back. The result is the whole run. */
  method ReadRun(b: Buffer, ghost d: Cursor, first: char, inRun: char -> bool) returns (val: string)
    requires b.Valid() && d.pos < |b.text| && b.text[d.pos] == first
    requires b.Cur() == Advance(b.text, d)
    modifies b
    ensures b.Valid()
    ensures Scanned(val, b.Cur()) == RunWord(b.text, d, inRun)
  {
    ghost var a := b.Cur();
    ghost var p0 := b.pos;
    ghost var e := RunEnd(b.text, p0, inRun);
    ghost var j := p0;
    val := [first];
    var s, ch := b.GetNextChar();
    while s == 0 && inRun(ch)
      invariant b.Valid()
      invariant p0 <= j <= e
      invariant val == b.text[p0 - 1..j]
      invariant b.Cur() == Advance(b.text, Walk(b.text, a, j - p0))
      invariant s == 0 <==> j < |b.text|
      invariant s == 0 ==> ch == b.text[j]
      decreases |b.text| - j
    {
      assert b.text[p0 - 1..j + 1] == b.text[p0 - 1..j] + [b.text[j]];
      val := val + [ch];
      j := j + 1;
      s, ch := b.GetNextChar();
    }
    var r := b.BackChar();
    assert j == e;
  }
}
