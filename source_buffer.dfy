/** The source reader of buffer.cpp: a cursor over the loaded characters that
    keeps the current line and column. Loading the file (buffer_init) is not
    modelled: the constructor takes the text. */
module SourceBuffer {

  /** The reader's position state: the index of the next character and the
      line/column counters (current_pos, src_line_no, src_col_no). */
  datatype Cursor = Cursor(pos: nat, line: int, col: int)

  /** The state change of one successful buffer_next_char. */
  function Advance(text: seq<char>, c: Cursor): (r: Cursor)
    ensures c.pos < |text| ==> r.pos == c.pos + 1
    ensures c.pos < |text| && text[c.pos] == '\n' ==> r.line == c.line + 1 && r.col == 1
    ensures c.pos < |text| && text[c.pos] != '\n' ==> r.line == c.line && r.col == c.col + 1
    ensures c.pos >= |text| ==> r == c
  {
    if c.pos >= |text| then c
    else if text[c.pos] == '\n' then Cursor(c.pos + 1, c.line + 1, 1)
    else Cursor(c.pos + 1, c.line, c.col + 1)
  }

  /** The state change of buffer_back_char: nothing at the start, otherwise
      one position back; over a newline one line back to column 1, over any
      other character one column back. */
  function Retreat(text: seq<char>, c: Cursor): (r: Cursor)
    requires c.pos <= |text|
    ensures c.pos == 0 ==> r == c
    ensures c.pos > 0 ==> r.pos == c.pos - 1 && (r.line == c.line <==> text[c.pos - 1] != '\n')
    ensures c.pos > 0 && text[c.pos - 1] == '\n' ==> r.line == c.line - 1 && r.col == 1
    ensures c.pos > 0 && text[c.pos - 1] != '\n' ==> r.line == c.line && r.col == c.col - 1
  {
    if c.pos == 0 then c
    else if text[c.pos - 1] == '\n' then Cursor(c.pos - 1, c.line - 1, 1)
    else Cursor(c.pos - 1, c.line, c.col - 1)
  }

  /** Stepping back after an advance restores the position and the line; the
      column is restored too unless the character was a newline, in which case
      it is left at 1. */
  lemma RetreatUndoesAdvance(text: seq<char>, c: Cursor)
    requires c.pos < |text|
    ensures Retreat(text, Advance(text, c)).pos == c.pos
    ensures Retreat(text, Advance(text, c)).line == c.line
    ensures Retreat(text, Advance(text, c)).col == if text[c.pos] == '\n' then 1 else c.col
  {
  }

  /** The number of newline characters in s. */
  function Newlines(s: seq<char>): (n: nat)
    ensures n <= |s|
    ensures n == 0 <==> '\n' !in s
  {
    if s == [] then 0
    else
      assert s == s[..|s| - 1] + [s[|s| - 1]];
      Newlines(s[..|s| - 1]) + (if s[|s| - 1] == '\n' then 1 else 0)
  }

  /** The lines of a text: the pieces between newline characters, where a
      final piece is a line only when it is not empty. */
  function Lines(text: seq<char>): (r: seq<seq<char>>)
    ensures forall k :: 0 <= k < |r| ==> '\n' !in r[k]
    ensures |r| == 0 <==> |text| == 0
    decreases |text|
  {
    if '\n' !in text then (if text == [] then [] else [text])
    else
      var k := FirstNewline(text);
      [text[..k]] + Lines(text[k + 1..])
  }

  /** The index of the first newline of text. */
  function FirstNewline(text: seq<char>): (k: nat)
    requires '\n' in text
    ensures k < |text| && text[k] == '\n' && '\n' !in text[..k]
  {
    if text[0] == '\n' then 0
    else
      assert '\n' in text[1..] by {
        var j :| 0 <= j < |text| && text[j] == '\n';
        assert text[1..][j - 1] == '\n';
      }
      var k := FirstNewline(text[1..]);
      assert text[..k + 1] == [text[0]] + text[1..][..k];
      k + 1
  }

  /** The text get_src_line yields for line lineNo (1-based), or None when
      there is no such line. A line ended by a newline comes without it; the
      last line of a text that does not end in a newline loses its last
      character, because the scan takes the index of that character as the
      (excluded) end. */
  function SourceLine(text: seq<char>, lineNo: int): (r: Option<seq<char>>)
    ensures r.Some? <==> 1 <= lineNo <= |Lines(text)|
  {
    var lines := Lines(text);
    if 1 <= lineNo <= |lines| then
      var l := lines[lineNo - 1];
      if lineNo == |lines| && text[|text| - 1] != '\n' && l != [] then Some(l[..|l| - 1])
      else Some(l)
    else None
  }

  datatype Option<T> = None | Some(value: T)

  /** Lines splits at newline boundaries: the lines of a text that is empty or
      ends in a newline, followed by more text, are the lines of both parts. */
  lemma {:induction false} LinesAppend(a: seq<char>, b: seq<char>)
    requires a == [] || a[|a| - 1] == '\n'
    ensures Lines(a + b) == Lines(a) + Lines(b)
    decreases |a|
  {
    if a == [] {
      assert a + b == b;
    } else {
      assert '\n' in a by { assert a[|a| - 1] == '\n'; }
      var k := FirstNewline(a);
      NewlineSuffix(a, k);
      LinesAppend(a[k + 1..], b);
      LinesAppendStep(a, b, k);
    }
  }

  /** What follows a newline of a text that ends in one also ends in one. */
  lemma NewlineSuffix(a: seq<char>, k: nat)
    requires k < |a| && a[|a| - 1] == '\n'
    ensures a[k + 1..] == [] || a[k + 1..][|a[k + 1..]| - 1] == '\n'
  {
  }

  /** One line of LinesAppend: the first line of a is the first line of
      a + b, and the rest follows from the rest. */
  lemma LinesAppendStep(a: seq<char>, b: seq<char>, k: nat)
    requires k < |a| && a[k] == '\n' && '\n' !in a[..k]
    requires Lines(a[k + 1..] + b) == Lines(a[k + 1..]) + Lines(b)
    ensures Lines(a + b) == Lines(a) + Lines(b)
  {
    assert (a + b)[..k] == a[..k];
    assert (a + b)[k + 1..] == a[k + 1..] + b;
    LinesAtNewline(a, k);
    LinesAtNewline(a + b, k);
    ConsAppend(a[..k], Lines(a[k + 1..]), Lines(b));
  }

  lemma ConsAppend<T>(x: T, p: seq<T>, q: seq<T>)
    ensures [x] + (p + q) == [x] + p + q
  {
  }

  /** The first newline is determined by its defining property. */
  lemma FirstNewlineUnique(text: seq<char>, k: nat)
    requires k < |text| && text[k] == '\n' && '\n' !in text[..k]
    ensures FirstNewline(text) == k
  {
    var j := FirstNewline(text);
  }

  /** The lines of a text whose first newline is at k. */
  lemma LinesAtNewline(text: seq<char>, k: nat)
    requires k < |text| && text[k] == '\n' && '\n' !in text[..k]
    ensures Lines(text) == [text[..k]] + Lines(text[k + 1..])
  {
    assert '\n' in text;
    FirstNewlineUnique(text, k);
  }

  /** A text that is empty or ends in a newline has one line per newline. */
  lemma {:induction false} LinesOfTerminated(a: seq<char>)
    requires a == [] || a[|a| - 1] == '\n'
    ensures |Lines(a)| == Newlines(a)
    decreases |a|
  {
    if a != [] {
      assert '\n' in a by { assert a[|a| - 1] == '\n'; }
      var k := FirstNewline(a);
      var rest := a[k + 1..];
      LinesAtNewline(a, k);
      LinesOfTerminated(rest);
      NewlinesSplit(a, k);
    }
  }

  /** Counting newlines around the first one. */
  lemma NewlinesSplit(a: seq<char>, k: nat)
    requires k < |a| && a[k] == '\n' && '\n' !in a[..k]
    ensures Newlines(a) == 1 + Newlines(a[k + 1..])
  {
    assert a == a[..k] + [a[k]] + a[k + 1..];
    NewlinesConcat(a[..k] + [a[k]], a[k + 1..]);
    NewlinesConcat(a[..k], [a[k]]);
    assert Newlines([a[k]]) == 1 by { assert [a[k]][..0] == []; }
  }

  /** Newlines counts additively over concatenation. */
  lemma {:induction false} NewlinesConcat(a: seq<char>, b: seq<char>)
    ensures Newlines(a + b) == Newlines(a) + Newlines(b)
    decreases |b|
  {
    if b == [] {
      assert a + b == a;
    } else {
      var b' := b[..|b| - 1];
      assert (a + b)[..|a + b| - 1] == a + b';
      NewlinesConcat(a, b');
    }
  }

  /** One step of the line scan over a newline that ends the current line. */
  lemma NewlinesStep(text: seq<char>, ls: nat, i: nat)
    requires ls <= i < |text| && text[i] == '\n' && '\n' !in text[ls..i]
    ensures Newlines(text[..i + 1]) == Newlines(text[..ls]) + 1
  {
    assert text[..i + 1] == text[..ls] + (text[ls..i] + [text[i]]);
    NewlinesConcat(text[..ls], text[ls..i] + [text[i]]);
    NewlinesConcat(text[ls..i], [text[i]]);
    assert Newlines([text[i]]) == 1 by { assert [text[i]][..0] == []; }
  }

  /** The scan of get_src_line reached the end without reaching line lineNo. */
  lemma NoSuchLine(text: seq<char>, ls: nat, lineNo: int, currentLine: int)
    requires ls <= |text| && (ls == 0 || text[ls - 1] == '\n') && '\n' !in text[ls..]
    requires currentLine == 1 + Newlines(text[..ls])
    requires lineNo >= 1 ==> currentLine <= lineNo
    requires currentLine == lineNo ==> ls == |text|
    ensures SourceLine(text, lineNo).None?
  {
    LinesOfTerminated(text[..ls]);
    assert text == text[..ls] + text[ls..];
    LinesAppend(text[..ls], text[ls..]);
    var rest := text[ls..];
    assert |Lines(rest)| <= 1;
  }

  /** The scan of get_src_line found line lineNo between ls and i. */
  lemma FoundLine(text: seq<char>, ls: nat, i: nat, lineNo: int)
    requires ls <= i < |text| && (ls == 0 || text[ls - 1] == '\n') && '\n' !in text[ls..i]
    requires text[i] == '\n' || i == |text| - 1
    requires lineNo == 1 + Newlines(text[..ls])
    ensures SourceLine(text, lineNo) == Some(text[ls..i])
  {
    if text[i] == '\n' {
      FoundLineAtNewline(text, ls, i, lineNo);
    } else {
      FoundLineAtEnd(text, ls, lineNo);
    }
  }

  lemma FoundLineAtNewline(text: seq<char>, ls: nat, i: nat, lineNo: int)
    requires ls <= i < |text| && (ls == 0 || text[ls - 1] == '\n') && '\n' !in text[ls..i]
    requires text[i] == '\n'
    requires lineNo == 1 + Newlines(text[..ls])
    ensures SourceLine(text, lineNo) == Some(text[ls..i])
  {
    LinesFrom(text, ls, lineNo);
    FoundTerminatedLine(text, ls, i);
    SourceLineInside(text, lineNo, text[ls..i]);
  }

  lemma FoundLineAtEnd(text: seq<char>, ls: nat, lineNo: int)
    requires ls < |text| && (ls == 0 || text[ls - 1] == '\n') && '\n' !in text[ls..|text| - 1]
    requires text[|text| - 1] != '\n'
    requires lineNo == 1 + Newlines(text[..ls])
    ensures SourceLine(text, lineNo) == Some(text[ls..|text| - 1])
  {
    var rest := text[ls..];
    LinesFrom(text, ls, lineNo);
    assert rest[..|rest| - 1] == text[ls..|text| - 1];
    FoundLastLine(rest);
    SourceLineLast(text, lineNo, rest);
  }

  /** The lines from a line start on are the lines of the rest of the text. */
  lemma LinesFrom(text: seq<char>, ls: nat, lineNo: int)
    requires ls < |text| && (ls == 0 || text[ls - 1] == '\n')
    requires lineNo == 1 + Newlines(text[..ls])
    ensures |Lines(text)| == lineNo - 1 + |Lines(text[ls..])|
    ensures |Lines(text[ls..])| > 0 && Lines(text)[lineNo - 1] == Lines(text[ls..])[0]
    ensures text[ls..][|text[ls..]| - 1] == text[|text| - 1]
  {
    var before, rest := text[..ls], text[ls..];
    assert text == before + rest;
    LinesOfTerminated(before);
    LinesAppend(before, rest);
  }

  /** SourceLine of a line that is not an unterminated last line. */
  lemma SourceLineInside(text: seq<char>, lineNo: int, l: seq<char>)
    requires 1 <= lineNo <= |Lines(text)| && Lines(text)[lineNo - 1] == l
    requires lineNo == |Lines(text)| ==> text[|text| - 1] == '\n'
    ensures SourceLine(text, lineNo) == Some(l)
  {
  }

  /** SourceLine of the unterminated last line. */
  lemma SourceLineLast(text: seq<char>, lineNo: int, l: seq<char>)
    requires lineNo == |Lines(text)| && lineNo >= 1 && Lines(text)[lineNo - 1] == l
    requires text[|text| - 1] != '\n' && l != []
    ensures SourceLine(text, lineNo) == Some(l[..|l| - 1])
  {
  }

  /** A piece ended by a newline is the first line of the rest; when the text
      does not end in a newline, more lines follow. */
  lemma FoundTerminatedLine(text: seq<char>, ls: nat, i: nat)
    requires ls <= i < |text| && text[i] == '\n' && '\n' !in text[ls..i]
    ensures |Lines(text[ls..])| > 0 && Lines(text[ls..])[0] == text[ls..i]
    ensures text[|text| - 1] != '\n' ==> |Lines(text[ls..])| > 1
  {
    var rest := text[ls..];
    assert rest[..i - ls] == text[ls..i];
    LinesAtNewline(rest, i - ls);
    assert |rest[i - ls + 1..]| == |text| - 1 - i;
  }

  /** A final piece without a newline is the one and only line of the rest. */
  lemma FoundLastLine(rest: seq<char>)
    requires |rest| > 0 && '\n' !in rest[..|rest| - 1] && rest[|rest| - 1] != '\n'
    ensures Lines(rest) == [rest]
  {
    forall j | 0 <= j < |rest|
      ensures rest[j] != '\n'
    {
      if j < |rest| - 1 {
        assert rest[..|rest| - 1][j] == rest[j];
      }
    }
  }

  /** The reader of buffer.cpp. buffer_cleanup and the file-loading
      buffer_init are not modelled; the text is fixed at construction. */
  class Buffer {
    const text: seq<char>
    var pos: nat
    var line: int
    var col: int

    ghost predicate Valid()
      reads this
    {
      pos <= |text|
    }

    function Cur(): Cursor
      reads this
    {
      Cursor(pos, line, col)
    }

    /** The initial state of the globals: position 0, line 1, column 0. */
    constructor (text: seq<char>)
      ensures Valid() && this.text == text && Cur() == Cursor(0, 1, 0)
    {
      this.text := text;
      pos, line, col := 0, 1, 0;
    }

    /** buffer_eof */
    predicate Eof()
      reads this
    {
      pos >= |text|
    }

    /** buffer_get_cur_char: the character at the position, or '\0' and -1 at
        the end; nothing changes. */
    method GetCurChar() returns (status: int, c: char)
      ensures status == 0 || status == -1
      ensures status == -1 <==> Eof()
      ensures status == 0 ==> c == text[pos]
      ensures status == -1 ==> c == '\0'
    {
      if Eof() {
        return -1, '\0';
      }
      return 0, text[pos];
    }

    /** buffer_peek_next_char: the same look at the current character. */
    method PeekNextChar() returns (status: int, c: char)
      ensures status == 0 || status == -1
      ensures status == -1 <==> pos >= |text|
      ensures status == 0 ==> c == text[pos]
      ensures status == -1 ==> c == '\0'
    {
      if pos >= |text| {
        return -1, '\0';
      }
      return 0, text[pos];
    }

    /** buffer_next_char: step over the current character. */
    method NextChar() returns (status: int)
      requires Valid()
      modifies this
      ensures Valid()
      ensures status == if old(pos) >= |text| then -1 else 0
      ensures Cur() == Advance(text, old(Cur()))
    {
      if Eof() {
        return -1;
      }
      var c := text[pos];
      if c == '\n' {
        line := line + 1;
        col := 1;
      } else {
        col := col + 1;
      }
      pos := pos + 1;
      return 0;
    }

    /** buffer_get_next_char: read the current character and step over it;
        at the end, '\0', -1 and no change. */
    method GetNextChar() returns (status: int, c: char)
      requires Valid()
      modifies this
      ensures Valid()
      ensures status == if old(pos) >= |text| then -1 else 0
      ensures c == if old(pos) >= |text| then '\0' else text[old(pos)]
      ensures Cur() == Advance(text, old(Cur()))
    {
      if Eof() {
        return -1, '\0';
      }
      c := text[pos];
      status := NextChar();
    }

    /** buffer_back_char: step back one character; -1 and no change at the
        start of the text. */
    method BackChar() returns (status: int)
      requires Valid()
      modifies this
      ensures Valid()
      ensures status == if old(pos) == 0 then -1 else 0
      ensures Cur() == Retreat(text, old(Cur()))
    {
      if pos == 0 {
        return -1;
      }
      pos := pos - 1;
      var c := text[pos];
      if c == '\n' {
        line := line - 1;
        col := 1;
      } else {
        col := col - 1;
      }
      return 0;
    }

    /** get_src_line: the text of line lineNo for diagnostics, or -2 when the
        line does not exist; on -2 the caller's string is left as it was. */
    method GetSrcLine(lineNo: int, given: seq<char>) returns (status: int, result: seq<char>)
      ensures status == 0 || status == -2
      ensures status == 0 <==> SourceLine(text, lineNo).Some?
      ensures status == 0 ==> result == SourceLine(text, lineNo).value
      ensures status == -2 ==> result == given
    {
      var startPos, endPos, currentLine := -1, -1, 1;
      ghost var ls := 0;
      var i := 0;
      while i < |text|
        invariant 0 <= ls <= i <= |text|
        invariant ls == 0 || text[ls - 1] == '\n'
        invariant '\n' !in text[ls..i]
        invariant currentLine == 1 + Newlines(text[..ls])
        invariant lineNo >= 1 ==> currentLine <= lineNo
        invariant startPos != -1 ==> startPos == ls && currentLine == lineNo && i < |text|
        invariant startPos == -1 && currentLine == lineNo ==> i == ls
        invariant endPos == -1
      {
        if currentLine == lineNo && startPos == -1 {
          startPos := i;
        }
        if currentLine == lineNo && (text[i] == '\n' || i == |text| - 1) {
          endPos := i;
          break;
        }
        assert text[ls..i + 1] == text[ls..i] + [text[i]];
        if text[i] == '\n' {
          NewlinesStep(text, ls, i);
          currentLine := currentLine + 1;
          ls := i + 1;
        }
        i := i + 1;
      }
      if startPos == -1 || endPos == -1 {
        assert text[ls..i] == text[ls..];
        NoSuchLine(text, ls, lineNo, currentLine);
        return -2, given;
      }
      FoundLine(text, ls, i, lineNo);
      result := text[startPos..endPos];
      status := 0;
    }
  }
}
