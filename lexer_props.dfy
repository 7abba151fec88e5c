/** What get_token promises, stated about the functional model Lexer.Lex. */
module LexerProperties {
  import opened Tokens
  import opened SourceBuffer
  import opened Lexer

  // ---------------------------------------------------------------------
  // Reference tables, written independently of the lexer's branches.

  /** The nine keywords and their kinds. */
  const KeywordTable: map<string, TokenId> :=
    map["true" := True, "false" := False, "mod" := Mod, "if" := If, "else" := Else,
        "while" := While, "print" := Print, "read" := Read, "int4" := Int4]

  /** The punctuation and operator characters that form a token on their own. */
  const SingleCharIds: map<char, TokenId> :=
    map['+' := Plus, '-' := Minus, '*' := Mult, '/' := Div, '^' := Exp,
        '<' := Less, '>' := Greater, '!' := Not, '(' := LParen, ')' := RParen,
        '{' := LBrace, '}' := RBrace, '[' := LBracket, ']' := RBracket,
        '&' := And, '|' := Or, '.' := Dot, '@' := At, ':' := Colon,
        ';' := Semicolon, ',' := Comma, '=' := Equal]

  /** The single-character tokens whose text is recorded in val. */
  const Valued: set<char> := {'+', '-', '<', '>', '!', '(', ')', '&', '|', '='}

  /** The two-character operators recognised with one character of lookahead. */
  const TwoCharIds: map<string, TokenId> :=
    map["<=" := LessEq, "<-" := Assign, ">=" := GreaterEq, "!=" := NotEqual, "~=" := NotEqual]

  /** A character that can begin a token. */
  predicate StartsToken(ch: char) {
    ch in SingleCharIds || ch == '"' || ch == '~' || IsRunStart(ch)
  }

  /** The escaped form of a string literal's content. */
  function EscapeChar(ch: char): (r: string)
    ensures 1 <= |r| <= 2
  {
    if ch == '\n' then "\\n"
    else if ch == '\t' then "\\t"
    else if ch == '\\' then "\\\\"
    else if ch == '"' then "\\\""
    else [ch]
  }

  function Escape(s: string): string {
    if s == [] then [] else EscapeChar(s[0]) + Escape(s[1..])
  }

  // ---------------------------------------------------------------------
  // Helpers.

  /** Lexing at a character that is not trivia starts the token right there. */
  lemma NoTrivia(text: seq<char>, c: Cursor)
    requires c.pos < |text| && !IsTrivia(text[c.pos])
    ensures Lex(text, c) == ScanToken(text, c)
  {
  }

  /** Lexing at a letter, a digit or an underscore reads a run. */
  lemma RunStart(text: seq<char>, c: Cursor)
    requires c.pos < |text| && IsRunStart(text[c.pos])
    ensures Lex(text, c) == ScanRun(text, c)
  {
    NoTrivia(text, c);
  }

  /** Successive advances over characters that are not newlines. */
  lemma {:induction false} WalkPlain(text: seq<char>, c: Cursor, n: nat)
    requires c.pos + n <= |text|
    requires forall k :: c.pos <= k < c.pos + n ==> text[k] != '\n'
    ensures Walk(text, c, n) == Cursor(c.pos + n, c.line, c.col + n)
  {
    if n > 0 {
      WalkPlain(text, c, n - 1);
    }
  }

  /** RunEnd is the end of the maximal run. */
  lemma {:induction false} RunEndIs(text: seq<char>, p: nat, e: nat, inRun: char -> bool)
    requires p <= e <= |text|
    requires forall k :: p <= k < e ==> inRun(text[k])
    requires e < |text| ==> !inRun(text[e])
    ensures RunEnd(text, p, inRun) == e
    decreases e - p
  {
    if p < e {
      RunEndIs(text, p + 1, e, inRun);
    }
  }

  /** A run of n characters from d, none of them a newline: the word is the
      run, and the cursor ends just after it, except that stepping back over
      a newline leaves the column at 1, and at the end of the text the last
      character of the run is given back. */
  lemma RunWordShape(text: seq<char>, d: Cursor, inRun: char -> bool, n: nat)
    requires 1 <= n && d.pos + n <= |text|
    requires forall k :: d.pos < k < d.pos + n ==> inRun(text[k])
    requires d.pos + n < |text| ==> !inRun(text[d.pos + n])
    requires forall k :: d.pos <= k < d.pos + n ==> text[k] != '\n'
    ensures RunWord(text, d, inRun).val == text[d.pos..d.pos + n]
    ensures d.pos + n < |text| ==>
      RunWord(text, d, inRun).at == Cursor(d.pos + n, d.line, if text[d.pos + n] == '\n' then 1 else d.col + n)
    ensures d.pos + n == |text| ==> RunWord(text, d, inRun).at == Cursor(|text| - 1, d.line, d.col + n - 1)
  {
    var a := Advance(text, d);
    RunEndIs(text, a.pos, d.pos + n, inRun);
    WalkPlain(text, a, n - 1);
  }

  // ---------------------------------------------------------------------
  // Words and numbers.

  /** The kind of a word is its keyword kind when it is one of the nine
      keywords, and TOKEN_IDENT otherwise. */
  lemma KeywordKinds(w: string)
    ensures w in KeywordTable ==> KeywordId(w) == KeywordTable[w]
    ensures w !in KeywordTable ==> KeywordId(w) == Ident
  {
  }

  /** A letter-initial maximal run of alphanumerics and underscores is one
      token: its keyword kind (or an identifier) with the whole run as val.
      The character after the run is not consumed; when the run reaches the
      end of the text, its last character is given back. */
  lemma LexWord(text: seq<char>, c: Cursor, w: string)
    requires c.pos + |w| <= |text| && text[c.pos..c.pos + |w|] == w
    requires |w| > 0 && IsAlpha(w[0]) && forall k :: 0 <= k < |w| ==> IsWordChar(w[k])
    requires c.pos + |w| < |text| ==> !IsWordChar(text[c.pos + |w|])
    ensures Lex(text, c).token == Token(KeywordId(w), c.line, c.col, w)
    ensures Lex(text, c).status.code == Ok
    ensures c.pos + |w| < |text| ==>
      Lex(text, c).after == Cursor(c.pos + |w|, c.line, if text[c.pos + |w|] == '\n' then 1 else c.col + |w|)
    ensures c.pos + |w| == |text| ==> Lex(text, c).after == Cursor(|text| - 1, c.line, c.col + |w| - 1)
  {
    assert text[c.pos] == w[0];
    RunStart(text, c);
    forall k | c.pos <= k < c.pos + |w|
      ensures IsWordChar(text[k]) && text[k] != '\n'
    {
      assert text[k] == w[k - c.pos];
    }
    RunWordShape(text, c, IsWordChar, |w|);
  }

  /** An integer token is the maximal digit run; the character after it is
      not consumed, and at the end of the text the last digit is given back. */
  lemma LexNumber(text: seq<char>, c: Cursor, ds: string)
    requires c.pos + |ds| <= |text| && text[c.pos..c.pos + |ds|] == ds
    requires |ds| > 0 && forall k :: 0 <= k < |ds| ==> IsDigit(ds[k])
    requires c.pos + |ds| < |text| ==> !IsDigit(text[c.pos + |ds|])
    ensures Lex(text, c).token == Token(Integer, c.line, c.col, ds)
    ensures Lex(text, c).status.code == Ok
    ensures c.pos + |ds| < |text| ==>
      Lex(text, c).after == Cursor(c.pos + |ds|, c.line, if text[c.pos + |ds|] == '\n' then 1 else c.col + |ds|)
    ensures c.pos + |ds| == |text| ==> Lex(text, c).after == Cursor(|text| - 1, c.line, c.col + |ds| - 1)
  {
    assert text[c.pos] == ds[0];
    RunStart(text, c);
    forall k | c.pos <= k < c.pos + |ds|
      ensures IsDigit(text[k]) && text[k] != '\n'
    {
      assert text[k] == ds[k - c.pos];
    }
    RunWordShape(text, c, IsDigit, |ds|);
  }

  /** An underscore-initial run is an identifier. */
  lemma LexUnderscoreWord(text: seq<char>, c: Cursor, w: string)
    requires c.pos + |w| <= |text| && text[c.pos..c.pos + |w|] == w
    requires |w| > 0 && w[0] == '_' && forall k :: 0 <= k < |w| ==> IsWordChar(w[k])
    requires c.pos + |w| < |text| ==> !IsWordChar(text[c.pos + |w|])
    ensures Lex(text, c).token == Token(Ident, c.line, c.col, w)
    ensures Lex(text, c).status.code == Ok
  {
    assert text[c.pos] == w[0];
    RunStart(text, c);
    forall k | c.pos <= k < c.pos + |w|
      ensures IsWordChar(text[k]) && text[k] != '\n'
    {
      assert text[k] == w[k - c.pos];
    }
    RunWordShape(text, c, IsWordChar, |w|);
  }

  /** A word or number that is the last character of the text is read and
      then given back: the cursor does not move, so every further call
      yields the same token again. */
  lemma LexStuckAtEnd(text: seq<char>, c: Cursor)
    requires c.pos == |text| - 1 && IsRunStart(text[c.pos])
    ensures Lex(text, c).after == c
    ensures Lex(text, c).token.val == [text[c.pos]]
  {
    RunStart(text, c);
    var a := Advance(text, c);
    assert RunEnd(text, a.pos, IsWordChar) == a.pos;
    assert RunEnd(text, a.pos, IsDigit) == a.pos;
  }

  /** When the text ends in a newline, every token other than TOKEN_EOF moves
      the cursor forward. */
  lemma LexAdvances(text: seq<char>, c: Cursor)
    requires c.pos <= |text| && |text| > 0 && text[|text| - 1] == '\n'
    ensures Lex(text, c).token.id != Eof ==> Lex(text, c).after.pos > c.pos
  {
    var sk := SkipTrivia(text, c);
    if sk.Reached? && sk.at.pos < |text| {
      var d := sk.at;
      assert Lex(text, c) == ScanToken(text, d);
      if IsRunStart(text[d.pos]) {
        assert d.pos < |text| - 1;
        RunAdvances(text, d, IsWordChar);
        RunAdvances(text, d, IsDigit);
        assert ScanToken(text, d) == ScanRun(text, d);
      } else {
        ScanTokenAdvances(text, d);
      }
    }
  }

  /** Every token other than a word or number ends past its first character. */
  lemma ScanTokenAdvances(text: seq<char>, d: Cursor)
    requires d.pos < |text| && !IsRunStart(text[d.pos])
    ensures ScanToken(text, d).after.pos > d.pos
  {
    var a := Advance(text, d);
    if text[d.pos] == '"' {
      assert ScanString(text, a, "").at.pos >= a.pos;
    }
  }

  /** A run that stops before a final newline ends past its first character. */
  lemma RunAdvances(text: seq<char>, d: Cursor, inRun: char -> bool)
    requires d.pos < |text| - 1 && text[|text| - 1] == '\n' && !inRun('\n')
    ensures RunWord(text, d, inRun).at.pos > d.pos
  {
    var a := Advance(text, d);
    var e := RunEnd(text, a.pos, inRun);
    assert e < |text|;
  }

  // ---------------------------------------------------------------------
  // Operators and punctuation.

  /** A single-character token: the kind from the table, val set only for
      + - < > ! ( ) & | =, and exactly one character consumed; this holds
      when the next character does not extend it to a two-character operator
      or to "--". */
  lemma LexSingleChar(text: seq<char>, c: Cursor)
    requires c.pos < |text| && text[c.pos] in SingleCharIds
    requires c.pos + 1 < |text| ==> text[c.pos..c.pos + 2] !in TwoCharIds && text[c.pos..c.pos + 2] != "--"
    ensures var x := text[c.pos];
      Lex(text, c) == Lexed(Token(SingleCharIds[x], c.line, c.col, if x in Valued then [x] else ""),
                            Error(Ok, c.line, c.col + 1), Cursor(c.pos + 1, c.line, c.col + 1))
  {
    NoTrivia(text, c);
    if c.pos + 1 < |text| {
      assert text[c.pos..c.pos + 2] == [text[c.pos], text[c.pos + 1]];
    }
  }

  /** The two-character operators: kind from the table, val the two
      characters, both consumed. */
  lemma LexTwoChar(text: seq<char>, c: Cursor)
    requires c.pos + 1 < |text| && text[c.pos..c.pos + 2] in TwoCharIds
    ensures var op := text[c.pos..c.pos + 2];
      Lex(text, c) == Lexed(Token(TwoCharIds[op], c.line, c.col, op),
                            Error(Ok, c.line, c.col + 2), Cursor(c.pos + 2, c.line, c.col + 2))
  {
    assert text[c.pos..c.pos + 2] == [text[c.pos], text[c.pos + 1]];
    NoTrivia(text, c);
  }

  /** The status is NCC_INVALID_CHAR exactly for "--", for a '~' not
      followed by '=', and for a character that cannot begin a token. The
      token then has kind TOKEN_NULL and no text, and one character is
      consumed. */
  lemma LexInvalid(text: seq<char>, c: Cursor)
    requires c.pos <= |text|
    ensures var r := Lex(text, c);
      var sk := SkipTrivia(text, c);
      r.status.code == InvalidChar <==>
        sk.Reached? && sk.at.pos < |text| &&
        var d := sk.at;
        var ch := text[d.pos];
        (ch == '-' && d.pos + 1 < |text| && text[d.pos + 1] == '-')
        || (ch == '~' && !(d.pos + 1 < |text| && text[d.pos + 1] == '='))
        || !StartsToken(ch)
    ensures var r := Lex(text, c);
      r.status.code == InvalidChar ==>
        r.token == Token(Null, SkipTrivia(text, c).at.line, SkipTrivia(text, c).at.col, "")
        && r.after.pos == SkipTrivia(text, c).at.pos + 1
  {
  }

  // ---------------------------------------------------------------------
  // String literals.

  /** Reading escaped content up to a closing quote decodes it. */
  lemma {:induction false} ScanEscaped(text: seq<char>, c: Cursor, s: string, acc: string)
    requires c.pos + |Escape(s)| < |text|
    requires text[c.pos..c.pos + |Escape(s)| + 1] == Escape(s) + "\""
    ensures ScanString(text, c, acc).val == acc + s
    ensures ScanString(text, c, acc).at.pos == c.pos + |Escape(s)| + 1
    decreases |s|
  {
    if s == [] {
      ScanClosingQuote(text, c, acc);
    } else {
      var next := ScanEscapedFirst(text, c, s, acc);
      ScanEscaped(text, next, s[1..], acc + [s[0]]);
      assert acc + [s[0]] + s[1..] == acc + s;
    }
  }

  /** The first character of non-empty escaped content. */
  lemma ScanEscapedFirst(text: seq<char>, c: Cursor, s: string, acc: string) returns (next: Cursor)
    requires s != [] && c.pos + |Escape(s)| < |text|
    requires text[c.pos..c.pos + |Escape(s)| + 1] == Escape(s) + "\""
    ensures next.pos + |Escape(s[1..])| < |text|
    ensures next.pos + |Escape(s[1..])| == c.pos + |Escape(s)|
    ensures text[next.pos..next.pos + |Escape(s[1..])| + 1] == Escape(s[1..]) + "\""
    ensures ScanString(text, c, acc) == ScanString(text, next, acc + [s[0]])
  {
    EscapedParts(text, c.pos, s);
    next := ScanEscapedStep(text, c, s[0], acc);
  }

  /** Escaped content followed by a quote: the first escape, then the rest. */
  lemma EscapedParts(text: seq<char>, p: nat, s: string)
    requires s != [] && p + |Escape(s)| < |text|
    requires text[p..p + |Escape(s)| + 1] == Escape(s) + "\""
    ensures |Escape(s)| == |EscapeChar(s[0])| + |Escape(s[1..])|
    ensures text[p..p + |EscapeChar(s[0])|] == EscapeChar(s[0])
    ensures text[p + |EscapeChar(s[0])|..p + |Escape(s)| + 1] == Escape(s[1..]) + "\""
  {
    assert Escape(s) == EscapeChar(s[0]) + Escape(s[1..]);
    QuotedSplit(text, p, EscapeChar(s[0]), Escape(s[1..]));
  }

  /** A slice holding x, y and a quote splits after x. */
  lemma QuotedSplit(text: seq<char>, p: nat, x: seq<char>, y: seq<char>)
    requires p + |x + y| < |text| && text[p..p + |x + y| + 1] == (x + y) + "\""
    ensures text[p..p + |x|] == x
    ensures text[p + |x|..p + |x + y| + 1] == y + "\""
  {
    var z := y + "\"";
    assert (x + y) + "\"" == x + z;
    assert p + |x + y| + 1 == p + |x| + |z|;
    SliceSplit(text, p, x, z);
  }

  /** The closing quote ends the scan and is consumed. */
  lemma ScanClosingQuote(text: seq<char>, c: Cursor, acc: string)
    requires c.pos < |text| && text[c.pos..c.pos + 1] == Escape([]) + "\""
    ensures ScanString(text, c, acc) == Scanned(acc + [], Advance(text, c))
  {
    assert text[c.pos] == text[c.pos..c.pos + 1][0];
    assert acc + [] == acc;
  }

  /** One escaped character of a literal: the scan continues after it with
      the character decoded. */
  lemma ScanEscapedStep(text: seq<char>, c: Cursor, ch: char, acc: string) returns (next: Cursor)
    requires c.pos + |EscapeChar(ch)| <= |text| && text[c.pos..c.pos + |EscapeChar(ch)|] == EscapeChar(ch)
    ensures next.pos == c.pos + |EscapeChar(ch)| <= |text|
    ensures ScanString(text, c, acc) == ScanString(text, next, acc + [ch])
  {
    var e := EscapeChar(ch);
    assert text[c.pos] == e[0];
    var a := Advance(text, c);
    if |e| == 2 {
      assert text[c.pos + 1] == e[1];
      next := Advance(text, a);
    } else {
      next := a;
    }
  }

  /** A slice that is a concatenation splits into the two parts. */
  lemma SliceSplit(text: seq<char>, p: nat, x: seq<char>, y: seq<char>)
    requires p + |x| + |y| <= |text| && text[p..p + |x| + |y|] == x + y
    ensures text[p..p + |x|] == x && text[p + |x|..p + |x| + |y|] == y
  {
    assert text[p..p + |x|] == (x + y)[..|x|];
    assert text[p + |x|..p + |x| + |y|] == (x + y)[|x|..];
  }

  /** A quoted literal yields TOKEN_STRING with the decoded content as val;
      the closing quote is consumed, and the status reports the token's
      start. */
  lemma LexString(text: seq<char>, c: Cursor, s: string)
    requires c.pos + |Escape(s)| + 2 <= |text|
    requires text[c.pos..c.pos + |Escape(s)| + 2] == "\"" + Escape(s) + "\""
    ensures Lex(text, c).token == Token(String, c.line, c.col, s)
    ensures Lex(text, c).status == Error(Ok, c.line, c.col)
    ensures Lex(text, c).after.pos == c.pos + |Escape(s)| + 2
  {
    var t := text[c.pos..c.pos + |Escape(s)| + 2];
    assert text[c.pos] == t[0] == '"';
    NoTrivia(text, c);
    var a := Advance(text, c);
    assert text[a.pos..a.pos + |Escape(s)| + 1] == t[1..] == Escape(s) + "\"";
    ScanEscaped(text, a, s, "");
    assert "" + s == s;
  }

  /** A character kept as it is inside a literal: anything but a quote or a
      backslash, a raw tab or newline included. */
  predicate Plain(ch: char) { ch != '"' && ch != '\\' }

  /** Any literal, terminated or not: get_token at a quote yields
      TOKEN_STRING with what the string loop decodes, stops where the loop
      stops, and reports status OK at the token's start. */
  lemma LexQuote(text: seq<char>, c: Cursor)
    requires c.pos < |text| && text[c.pos] == '"'
    ensures var sc := ScanString(text, Advance(text, c), "");
      Lex(text, c) == Lexed(Token(String, c.line, c.col, sc.val), Error(Ok, c.line, c.col), sc.at)
  {
    NoTrivia(text, c);
  }

  /** A plain character is appended unchanged. */
  lemma ScanPlainChar(text: seq<char>, c: Cursor, acc: string)
    requires c.pos < |text| && Plain(text[c.pos])
    ensures ScanString(text, c, acc) == ScanString(text, Advance(text, c), acc + [text[c.pos]])
  {
  }

  /** An unknown escape is dropped with its backslash, and the scan goes on
      after it. */
  lemma ScanUnknownEscape(text: seq<char>, c: Cursor, acc: string)
    requires c.pos + 1 < |text| && text[c.pos] == '\\'
    requires text[c.pos + 1] !in {'n', 't', '\\', '"'}
    ensures ScanString(text, c, acc) == ScanString(text, Advance(text, Advance(text, c)), acc)
  {
    assert Unescape(text[c.pos + 1]) == "";
    assert acc + "" == acc;
  }

  /** A backslash that is the last character ends the scan after it,
      contributing nothing. */
  lemma ScanBackslashAtEnd(text: seq<char>, c: Cursor, acc: string)
    requires c.pos + 1 == |text| && text[c.pos] == '\\'
    ensures ScanString(text, c, acc) == Scanned(acc, Advance(text, c))
  {
  }

  /** The string loop stops only at the end of the text or right after a
      quote. */
  lemma {:induction false} ScanStops(text: seq<char>, c: Cursor, acc: string)
    requires c.pos <= |text|
    ensures var r := ScanString(text, c, acc);
      r.at.pos == |text| || (c.pos < r.at.pos && text[r.at.pos - 1] == '"')
    decreases |text| - c.pos
  {
    if c.pos < |text| {
      var a := Advance(text, c);
      if text[c.pos] == '\\' {
        if a.pos < |text| {
          ScanStops(text, Advance(text, a), acc + Unescape(text[a.pos]));
        }
      } else if text[c.pos] != '"' {
        ScanStops(text, a, acc + [text[c.pos]]);
      }
    }
  }

  /** Plain characters up to a quote are the content, kept as they are; the
      quote is consumed. */
  lemma {:induction false} ScanPlain(text: seq<char>, c: Cursor, raw: string, acc: string)
    requires c.pos + |raw| < |text| && text[c.pos..c.pos + |raw| + 1] == raw + "\""
    requires forall k :: 0 <= k < |raw| ==> Plain(raw[k])
    ensures ScanString(text, c, acc).val == acc + raw
    ensures ScanString(text, c, acc).at.pos == c.pos + |raw| + 1
    decreases |raw|
  {
    assert text[c.pos] == (raw + "\"")[0];
    if raw == [] {
      assert acc + raw == acc;
    } else {
      ScanPlainChar(text, c, acc);
      var a := Advance(text, c);
      assert text[a.pos..a.pos + |raw[1..]| + 1] == (raw + "\"")[1..] == raw[1..] + "\"";
      ScanPlain(text, a, raw[1..], acc + [raw[0]]);
      assert acc + [raw[0]] + raw[1..] == acc + raw;
    }
  }

  /** Plain characters up to the end of the text: an unterminated literal
      keeps them all and the scan ends at the end. */
  lemma {:induction false} ScanUnterminated(text: seq<char>, c: Cursor, acc: string)
    requires c.pos <= |text| && forall k :: c.pos <= k < |text| ==> Plain(text[k])
    ensures ScanString(text, c, acc).val == acc + text[c.pos..]
    ensures ScanString(text, c, acc).at.pos == |text|
    decreases |text| - c.pos
  {
    if c.pos == |text| {
      assert acc + text[c.pos..] == acc;
    } else {
      ScanPlainChar(text, c, acc);
      var a := Advance(text, c);
      ScanUnterminated(text, a, acc + [text[c.pos]]);
      assert acc + [text[c.pos]] + text[a.pos..] == acc + text[c.pos..];
    }
  }

  /** A quoted literal of plain characters, raw tabs and newlines included,
      is one TOKEN_STRING holding them as they are. */
  lemma LexPlainString(text: seq<char>, c: Cursor, raw: string)
    requires c.pos + |raw| + 2 <= |text| && text[c.pos..c.pos + |raw| + 2] == "\"" + raw + "\""
    requires forall k :: 0 <= k < |raw| ==> Plain(raw[k])
    ensures Lex(text, c).token == Token(String, c.line, c.col, raw)
    ensures Lex(text, c).status == Error(Ok, c.line, c.col)
    ensures Lex(text, c).after.pos == c.pos + |raw| + 2
  {
    var t := text[c.pos..c.pos + |raw| + 2];
    assert text[c.pos] == t[0] == '"';
    LexQuote(text, c);
    var a := Advance(text, c);
    assert text[a.pos..a.pos + |raw| + 1] == t[1..] == raw + "\"";
    ScanPlain(text, a, raw, "");
    assert "" + raw == raw;
  }

  /** A literal whose closing quote is missing still yields TOKEN_STRING,
      with status OK and the rest of the text as its value. */
  lemma LexUnterminated(text: seq<char>, c: Cursor)
    requires c.pos < |text| && text[c.pos] == '"'
    requires forall k :: c.pos < k < |text| ==> Plain(text[k])
    ensures Lex(text, c).token == Token(String, c.line, c.col, text[c.pos + 1..])
    ensures Lex(text, c).status == Error(Ok, c.line, c.col)
    ensures Lex(text, c).after.pos == |text|
  {
    LexQuote(text, c);
    ScanUnterminated(text, Advance(text, c), "");
    assert "" + text[c.pos + 1..] == text[c.pos + 1..];
  }

  // ---------------------------------------------------------------------
  // Blanks, newlines and comments.

  /** A blank is skipped; the column moves by two. */
  lemma LexAfterBlank(text: seq<char>, c: Cursor)
    requires c.pos < |text| && IsBlank(text[c.pos])
    ensures Lex(text, c) == Lex(text, Cursor(c.pos + 1, c.line, c.col + 2))
  {
  }

  /** A newline is skipped; the line moves by two and the column is 1. */
  lemma LexAfterNewline(text: seq<char>, c: Cursor)
    requires c.pos < |text| && text[c.pos] == '\n'
    ensures Lex(text, c) == Lex(text, Cursor(c.pos + 1, c.line + 2, 1))
  {
  }

  /** Inside a comment, characters other than newlines move the column by two. */
  lemma {:induction false} SkipCommentPlain(text: seq<char>, c: Cursor, n: nat)
    requires c.pos + n <= |text|
    requires forall k :: c.pos <= k < c.pos + n ==> text[k] != '\n'
    ensures SkipComment(text, c) == SkipComment(text, Cursor(c.pos + n, c.line, c.col + 2 * n))
    decreases n
  {
    if n > 0 {
      SkipCommentPlain(text, Cursor(c.pos + 1, c.line, c.col + 2), n - 1);
    }
  }

  /** A comment from '#' through its newline is skipped; the line moves by
      two and the column is 1. */
  lemma LexAfterComment(text: seq<char>, c: Cursor, n: nat)
    requires c.pos + n + 1 < |text| && text[c.pos] == '#'
    requires forall k :: c.pos < k <= c.pos + n ==> text[k] != '\n'
    requires text[c.pos + n + 1] == '\n'
    ensures Lex(text, c) == Lex(text, Cursor(c.pos + n + 2, c.line + 2, 1))
  {
    SkipCommentPlain(text, Cursor(c.pos + 1, c.line, c.col + 2), n);
  }

  /** A comment that runs to the end of the text yields TOKEN_EOF with
      NCC_OK. */
  lemma LexCommentToEnd(text: seq<char>, c: Cursor)
    requires c.pos < |text| && text[c.pos] == '#'
    requires forall k :: c.pos < k < |text| ==> text[k] != '\n'
    ensures var col := c.col + 2 * (|text| - c.pos);
      Lex(text, c) == Lexed(Token(Eof, c.line, col, ""), Error(Ok, c.line, col), Cursor(|text|, c.line, col))
  {
    SkipCommentPlain(text, Cursor(c.pos + 1, c.line, c.col + 2), |text| - c.pos - 1);
  }

  /** Only blanks and newlines up to the end: TOKEN_EOF with NCC_OK, and
      the whole text consumed. */
  lemma {:induction false} LexBlankTail(text: seq<char>, c: Cursor)
    requires c.pos <= |text|
    requires forall k :: c.pos <= k < |text| ==> IsBlank(text[k]) || text[k] == '\n'
    ensures Lex(text, c).token.id == Eof && Lex(text, c).status.code == Ok
    ensures Lex(text, c).after.pos == |text|
    decreases |text| - c.pos
  {
    if c.pos < |text| {
      if IsBlank(text[c.pos]) {
        LexAfterBlank(text, c);
        LexBlankTail(text, Cursor(c.pos + 1, c.line, c.col + 2));
      } else {
        LexAfterNewline(text, c);
        LexBlankTail(text, Cursor(c.pos + 1, c.line + 2, 1));
      }
    }
  }
}
