# A verified model of the markom21/Compiler core

This project models the core of a small compiler written in C++. The
compiler reads a source file through a character buffer with line and column
counters and splits it into tokens. It parses arithmetic expressions by
recursive descent into a tree, and can evaluate that tree or translate it
into textual stack-machine instructions. Separately, it turns a statement
tree into raw 32-bit x86 machine code, and a linking pass fills in the jump
displacements. The model covers five source files:

- `buffer.cpp` is modelled as the class `SourceBuffer.Buffer`. It holds the
  text, the position and the line and column counters. The functions
  `Advance`, `Retreat` and `SourceLine` specify it.
- `lex.cpp` is modelled by two things. The functional model is
  `Lexer.Lex`, made of `SkipTrivia`, `SkipComment`, `ScanToken`,
  `ScanString` and `RunWord`. The imperative `Lexer.GetToken` works over a
  `Buffer` and is proved to compute `Lex`. `LexerProperties` states what a
  token is in terms of the text: keywords, maximal runs, operators,
  escapes, comments and invalid characters. The stated properties are
  checked against reference tables written independently of the branches.
- `c_tree.cpp` has three parts:
  - The parser is the class `Parser.Parse`. Its methods are proved to
    compute the functions `Expression`, `Term` and `Factor` over the token
    sequence. `ParserProperties` proves the shape of every tree built, and it
    proves a round trip: a printer whose output `Expression` reads back into
    the same tree. The round trip establishes precedence and left
    associativity.
  - `node::evaluate` is `Evaluator.Evaluate`, over C++ 32-bit `int`.
  - `generate_code` is `StackCode.GenerateCode`. It is proved against a
    small register and stack machine to leave the value `Evaluate` computes
    on the stack.
- `s_table.cpp` is modelled as the classes `SymbolTable.SymbolTable` and
  `SymbolTable.StringPool`, specified by `IndexOf`, `Inserted` and `Intern`.
- `c_gen.cpp` is modelled as the class `CodeGenerator.CodeGen`. Every
  emitter and `generate_node_code` leave it in the state that the
  functions of `CodeImage` compute. `jump` is proved to compute
  `Relocation.Relocate`, which visits the displacement fields in increasing
  offset order, as the `std::map` iterator does.
  - `CodeImageProperties` gives the bytes generated for every construct.
  - `CodeImageGrowth` proves the layout invariant that generation keeps:
    fields lie inside the code, do not overlap and point at labels that
    were handed out.
  - `CodeImageTargets` proves that every jump targets a label the
    generation also places. Each construct places the labels it hands out
    before it returns.
  - `ProgramCodeProperties` puts these together for
    `generate_program_code`. Every field decodes to the distance to its
    label, and every other byte is the byte the emitters wrote.

The model follows the code as written, including behaviour that looks
unintended. Each of these is stated by a member:

- `get_token` bumps the line and column counters itself while skipping
  blanks, newlines and comments, and `buffer_next_char` bumps them too. So
  a blank moves the column by two and a newline moves the line by two
  (`LexAfterBlank`, `LexAfterNewline`, `LexAfterComment`).
- A word or number always ends with `buffer_back_char`. When the word or
  number runs to the end of the text, this gives back its last character.
  A one-character word at the very end is then read again forever
  (`LexStuckAtEnd`).
- `get_src_line` drops the last character of a last line that has no
  newline (`SourceLine`).
- `jcc_rel32` maps `TOKEN_FALSE` with `jump_if_true` to JNE. So an AND
  jumps over its right operand when the left one is non-zero, and an IF
  skips its body when the condition holds (`JccLogicalIgnoresOperator`,
  `AndBytes`, `IfThenBytes`).
- `generate_code` treats a negation, which is a minus node without a left
  operand, like a subtraction. It pops two values of which only one was
  pushed (`NegationUnderflows`, `NegationBorrows`).

The token kinds `TRUE`, `FALSE`, `IF`, `ELSE`, `WHILE`, `PRINT`, `READ`,
`INT4` and `BLOCK` are used by `lex.cpp` and `c_gen.cpp` but are missing
from the `token.h` enum. The model adds them to
`Tokens.TokenId`. The node of `c_tree.h` has no `next` or
`symbol_table_index` member, although `c_gen.cpp` reads both. `Ast.Node`
carries them, and the parser leaves them at `Nil` and `-1`.

Places where a C++ program stops or has undefined behaviour are modelled
as `Failure` or `ParseError`. These are `exit` in `parse::error`, a null
operand, division by zero and signed overflow in `evaluate`, and
`std::stoi` throwing on a literal. The `stoi` case is the `thrown` flag of
`CodeImage.Image`. Integers are unbounded in Dafny. The 32-bit behaviour is
written out: `Wrap` for the `static_cast<int>` of a `size_t` difference,
`LE32` for `append_int32`, and `TDiv`/`TMod` for C++ truncating division.

## Model

| member | source | states |
|---|---|---|
| SourceBuffer.Advance | buffer.cpp:45-63 | one step moves the position by one; a newline increments the line and resets the column to 1, any other character increments the column; at the end nothing changes |
| SourceBuffer.Retreat | buffer.cpp:82-100 | stepping back does nothing at position 0; otherwise it moves back one position, over a newline to the previous line at column 1, over any other character to the previous column on the same line |
| SourceBuffer.RetreatUndoesAdvance | buffer.cpp:82-100 | stepping back after stepping over a character restores position and line, and the column unless the character was a newline (then the column is 1) |
| SourceBuffer.SourceLine | buffer.cpp:119-148 | a line exists exactly for 1 <= lineNo <= the number of lines |
| SourceBuffer.SourceLineInside | buffer.cpp:130-134 | a line ended by a newline is returned whole |
| SourceBuffer.SourceLineLast | buffer.cpp:130-134 | an unterminated last line is returned without its last character |
| SourceBuffer.LinesOfTerminated | buffer.cpp:136-139 | a text ending in a newline has as many lines as newlines, which is what the line counter of the scan counts |
| SourceBuffer.LinesAppend | buffer.cpp:125-140 | splitting into lines distributes over concatenation at a newline boundary |
| SourceBuffer.NoSuchLine | buffer.cpp:142-145 | when the scan runs off the end without reaching the line, the line does not exist |
| SourceBuffer.FoundLine | buffer.cpp:127-134 | the start and end indices the scan finds delimit exactly the requested line |
| SourceBuffer.Buffer.constructor | buffer.cpp:6-9 | the reader starts at position 0, line 1, column 0 |
| SourceBuffer.Buffer.Eof | buffer.cpp:77-80 | buffer_eof, which lex_eof (lex.cpp:316-319) returns: the position has reached the end of the text (a predicate without a contract of its own) |
| SourceBuffer.Buffer.GetCurChar | buffer.cpp:34-43 | -1 and '\0' exactly at the end, otherwise 0 and the current character |
| SourceBuffer.Buffer.PeekNextChar | buffer.cpp:102-111 | -1 and '\0' exactly at the end, otherwise 0 and the current character, with no state change |
| SourceBuffer.Buffer.NextChar | buffer.cpp:45-63 | -1 at the end, otherwise 0; the cursor becomes Advance of the old one |
| SourceBuffer.Buffer.GetNextChar | buffer.cpp:65-74 | returns the character stepped over ('\0' at the end) and the new cursor is Advance of the old one |
| SourceBuffer.Buffer.BackChar | buffer.cpp:82-100 | -1 and no change at position 0, otherwise 0 and the cursor becomes Retreat of the old one |
| SourceBuffer.Buffer.GetSrcLine | buffer.cpp:119-149 | status 0 exactly when the line exists, with the text SourceLine gives; -2 leaves the caller's string unchanged |
| SymbolTable.IndexOf | s_table.cpp:32-42 | -1 exactly when absent; otherwise an index holding the element with no earlier occurrence |
| SymbolTable.Inserted | s_table.cpp:19-30 | the table grows by one entry at the end on the stack at offset -4*(size+1), the old entries unchanged |
| SymbolTable.SymbolTable.constructor | s_table.cpp:3 | the table starts empty |
| SymbolTable.SymbolTable.Insert | s_table.cpp:19-30 | appends the new entry even for a duplicate name, returns its index, and keeps every entry i at offset -4*(i+1) |
| SymbolTable.SymbolTable.Find | s_table.cpp:32-42 | returns the index of the first entry with the name, or -1 |
| SymbolTable.InsertedKeepsDense | s_table.cpp:19-30 | insertion keeps every entry on the stack at offset -4*(i+1) |
| SymbolTable.NamesInserted | s_table.cpp:28 | the names after insert are the old names followed by the new one |
| SymbolTable.FindAfterFreshInsert | s_table.cpp:19-42 | after inserting an absent name, find returns the new index |
| SymbolTable.FindKeepsEarlier | s_table.cpp:19-42 | inserting never changes what find returns for a name already present |
| SymbolTable.FindOtherAbsent | s_table.cpp:19-42 | inserting another name does not make an absent name findable |
| SymbolTable.Intern | s_table.cpp:6-17 | the index of an equal string with the pool unchanged, or the new string appended at index size |
| SymbolTable.InternIdempotent | s_table.cpp:6-17 | adding the same string twice returns the same index and leaves the pool as after the first time |
| SymbolTable.InternKeepsDistinct | s_table.cpp:6-17 | the pool never holds a duplicate |
| SymbolTable.InternUnique | s_table.cpp:6-17 | in a duplicate-free pool the returned index is the only position of the string |
| SymbolTable.StringPool.constructor | s_table.cpp:4 | the pool starts empty |
| SymbolTable.StringPool.AddStringConstant | s_table.cpp:6-17 | the search loop returns the pool and index Intern gives and keeps the pool duplicate-free |
| Lexer.Lex | lex.cpp:17-314 | get_token as a function: TOKEN_EOF with status OK at the end or inside a comment that runs to the end, otherwise ScanToken at the first character after the skipping (a definition; its properties are the LexerProperties lemmas) |
| Lexer.ScanToken | lex.cpp:92-312 | the switch on the first character (a definition; LexSingleChar, LexTwoChar, LexInvalid, LexString and ScanTokenAdvances state it) |
| Lexer.ScanRun | lex.cpp:234-309 | a letter starts a word of its keyword kind, a digit a TOKEN_INTEGER, an underscore a TOKEN_IDENT (a definition; LexWord, LexNumber and LexUnderscoreWord state it) |
| Lexer.RunWord | lex.cpp:236-241 | the run and the final buffer_back_char (a definition; RunWordShape and LexStuckAtEnd state it) |
| Lexer.KeywordId | lex.cpp:243-282 | the keyword table (a definition; KeywordKinds checks it against an independent table) |
| Lexer.Bump | lex.cpp:33-37 | get_token's own column increment on top of buffer_get_next_char's (a definition; LexAfterBlank and SkipCommentPlain state it) |
| Lexer.NewLine | lex.cpp:38-43 | get_token's own line increment and column reset to 1 after a newline (a definition; LexAfterNewline and LexAfterComment state it) |
| Lexer.Unescape | lex.cpp:194-205 | the escape switch: \n, \t, backslash and quote decode to their character, any other escape to nothing (a definition; ScanEscapedStep states the four known escapes and ScanUnknownEscape the others) |
| Lexer.SkipTrivia | lex.cpp:25-74 | skipping stops at the end or at a character that is not blank, newline or '#', or at the end inside a comment |
| Lexer.SkipComment | lex.cpp:44-69 | a comment is always consumed: skipping ends past the '#', at a character that is not trivia or at the end of the text |
| Lexer.ScanString | lex.cpp:176-211 | the string loop never moves backwards and stays in the text |
| Lexer.RunEnd | lex.cpp:237-240 | a run ends at the first character after p that is not in the run, or at the end of the text |
| Lexer.GetToken | lex.cpp:17-314 | the token, status and final cursor are those of Lex on the old cursor |
| Lexer.ReadToken | lex.cpp:85-313 | after skipping, the token, status and cursor are those of ScanToken |
| Lexer.ReadRunToken | lex.cpp:233-309 | the word, number and underscore branches give what ScanRun gives |
| Lexer.ReadString | lex.cpp:170-211 | the string loop leaves the decoded text and cursor of ScanString |
| Lexer.ReadRun | lex.cpp:236-241 | the run loop and the final buffer_back_char leave the text and cursor of RunWord |
| LexerProperties.KeywordKinds | lex.cpp:243-282 | a word is its keyword kind exactly for the nine keywords of the table, and TOKEN_IDENT otherwise |
| LexerProperties.RunWordShape | lex.cpp:234-241 | a run's text is the whole maximal run; the cursor ends after it, or on its last character at the end of the text |
| LexerProperties.LexWord | lex.cpp:234-283 | a letter-initial maximal run is one token of its keyword kind with the run as text, starting at the cursor, status OK |
| LexerProperties.LexNumber | lex.cpp:285-298 | a maximal digit run is one TOKEN_INTEGER with the digits as text |
| LexerProperties.LexUnderscoreWord | lex.cpp:299-309 | an underscore-initial run is a TOKEN_IDENT |
| LexerProperties.LexStuckAtEnd | lex.cpp:237-241 | a word or number that is the last character of the text leaves the cursor where it was |
| LexerProperties.LexAdvances | lex.cpp:17-314 | in a text ending in a newline every token other than TOKEN_EOF moves the cursor forward |
| LexerProperties.ScanTokenAdvances | lex.cpp:92-232 | every token that is not a word or number ends past its first character |
| LexerProperties.RunAdvances | lex.cpp:234-241 | a run that stops before a final newline ends past its first character |
| LexerProperties.LexSingleChar | lex.cpp:94-169 | a punctuation or operator character without a two-character continuation is one token of the kind in the table, with its text recorded only for the characters that set val |
| LexerProperties.LexTwoChar | lex.cpp:114-150 | <= <- >= != ~= are one token each, of the kind in the table, with the two characters as text |
| LexerProperties.LexInvalid | lex.cpp:92-312 | the status is NCC_INVALID_CHAR exactly for "--", a '~' not followed by '=', and a character that starts no token; the token is then TOKEN_NULL with no text |
| LexerProperties.ScanEscaped | lex.cpp:176-211 | reading the escaped form of a string up to a quote decodes it and consumes the quote |
| LexerProperties.ScanEscapedFirst | lex.cpp:184-210 | one escape sequence or plain character decodes to one character and the scan continues after it |
| LexerProperties.ScanClosingQuote | lex.cpp:180-183 | the closing quote ends the string and is consumed |
| LexerProperties.ScanEscapedStep | lex.cpp:184-210 | reading the escaped form of one character appends that character and continues after it |
| LexerProperties.LexString | lex.cpp:170-216 | a quoted literal whose content is the escaped form of a string s yields TOKEN_STRING with s, reported at its start, consuming both quotes |
| LexerProperties.LexQuote | lex.cpp:170-216 | any literal, terminated or not, yields TOKEN_STRING with the value and end cursor of the string loop, and status OK at its start |
| LexerProperties.ScanPlainChar | lex.cpp:206-209 | a character other than a quote or backslash, a raw tab or newline included, is appended unchanged |
| LexerProperties.ScanUnknownEscape | lex.cpp:200-204 | a backslash followed by anything but n, t, backslash or quote contributes nothing, and the scan continues after both characters |
| LexerProperties.ScanBackslashAtEnd | lex.cpp:184-190 | a backslash that is the last character ends the scan after it, contributing nothing |
| LexerProperties.ScanStops | lex.cpp:176-183 | the string loop stops only at the end of the text or right after a quote |
| LexerProperties.ScanPlain | lex.cpp:176-211 | plain characters up to a quote are kept as they are, and the quote is consumed |
| LexerProperties.ScanUnterminated | lex.cpp:176-211 | plain characters up to the end of the text are all kept, and the scan ends at the end |
| LexerProperties.LexPlainString | lex.cpp:170-216 | a quoted literal of plain characters, raw tabs and newlines included, is one TOKEN_STRING holding them unchanged |
| LexerProperties.LexUnterminated | lex.cpp:170-216 | a literal without a closing quote still yields TOKEN_STRING with status OK, holding the rest of the text |
| LexerProperties.LexAfterBlank | lex.cpp:33-37 | a blank is skipped and moves the column by two |
| LexerProperties.LexAfterNewline | lex.cpp:38-43 | a newline is skipped, moves the line by two and sets the column to 1 |
| LexerProperties.SkipCommentPlain | lex.cpp:49-60 | inside a comment every character other than a newline moves the column by two |
| LexerProperties.LexAfterComment | lex.cpp:44-69 | a comment through its newline is skipped; the line moves by two and the column is 1 |
| LexerProperties.LexCommentToEnd | lex.cpp:51-58 | a comment that runs to the end of the text yields TOKEN_EOF with status OK at the final column |
| LexerProperties.LexBlankTail | lex.cpp:25-89 | only blanks and newlines up to the end give TOKEN_EOF with status OK and consume everything |
| Parser.TokenAt | c_tree.cpp:55-69 | past the end of the token sequence the lexer's token is TOKEN_EOF |
| Parser.Expression | c_tree.cpp:98-109 | a successful parse_expression consumes at least one token and stays in the sequence |
| Parser.ExpressionTail | c_tree.cpp:101-107 | the folding loop of parse_expression never moves backwards |
| Parser.Term | c_tree.cpp:111-122 | a successful parse_term consumes at least one token |
| Parser.TermTail | c_tree.cpp:114-120 | the folding loop of parse_term never moves backwards |
| Parser.Factor | c_tree.cpp:124-155 | a successful parse_factor consumes at least one token |
| Parser.Parse.constructor | c_tree.cpp:48-51 | the parser starts on the first token |
| Parser.Parse.NextToken | c_tree.cpp:55-69 | the next token becomes current; at the end TOKEN_EOF stays current |
| Parser.Parse.Consume | c_tree.cpp:76-90 | succeeds and advances exactly when the current token has the kind and is not TOKEN_EOF |
| Parser.Parse.ParseExpression | c_tree.cpp:98-109 | the result and the new position are those of Expression |
| Parser.Parse.ParseTerm | c_tree.cpp:111-122 | the result and the new position are those of Term |
| Parser.Parse.ParseFactor | c_tree.cpp:124-155 | the result and the new position are those of Factor |
| ParserProperties.TermTailStep | c_tree.cpp:114-120 | one turn of the term loop folds the operator, the tree so far and the next factor |
| ParserProperties.ExpressionTailStep | c_tree.cpp:101-107 | one turn of the expression loop folds the operator, the tree so far and the next term |
| ParserProperties.FactorRoundTrip | c_tree.cpp:124-155 | parse_factor reads a factor laid out in the tokens back into the same tree, consuming exactly its tokens |
| ParserProperties.ParenRoundTrip | c_tree.cpp:127-132 | a parenthesised expression is read back without a node of its own |
| ParserProperties.NegationRoundTrip | c_tree.cpp:133-139 | a negation is read back as a minus node without a left operand |
| ParserProperties.TermPrefix | c_tree.cpp:111-122 | parse_term reads a term laid out in the tokens and stops after it with the whole term folded |
| ParserProperties.ProductPrefix | c_tree.cpp:114-120 | a product is folded left to right |
| ParserProperties.ExpressionPrefix | c_tree.cpp:98-109 | parse_expression reads an expression laid out in the tokens and stops after it, when the next token does not extend a term |
| ParserProperties.SumPrefix | c_tree.cpp:101-107 | a sum is folded left to right |
| ParserProperties.ExpressionRoundTrip | c_tree.cpp:98-155 | a printed tree followed by any non-operator parses back to the same tree, consuming exactly the printed tokens |
| ParserProperties.ParseOfPrint | c_tree.cpp:98-155 | a token sequence that is a printed tree parses to that tree |
| ParserProperties.PrintLeaf | c_tree.cpp:140-144 | a literal is one token at every level |
| ParserProperties.LeftAssociative | c_tree.cpp:101-107 | a - b + c parses as ((a - b) + c) |
| ParserProperties.ProductBindsTighter | c_tree.cpp:98-122 | a + b * c parses as (a + (b * c)) |
| ParserProperties.NestedNegation | c_tree.cpp:133-139 | - - a parses as a negation of a negation |
| ParserProperties.FactorShaped | c_tree.cpp:124-155 | every tree parse_factor builds is a literal leaf, a negation or a binary arithmetic node |
| ParserProperties.TermTailShaped | c_tree.cpp:114-120 | the term loop only builds such trees |
| ParserProperties.TermShaped | c_tree.cpp:111-122 | every tree parse_term builds is such a tree |
| ParserProperties.ExpressionTailShaped | c_tree.cpp:101-107 | the expression loop only builds such trees |
| ParserProperties.ExpressionShaped | c_tree.cpp:98-109 | every tree parse_expression builds is such a tree |
| ParserProperties.FactorNeedsStart | c_tree.cpp:145-153 | a factor starting with anything but (, - or a literal, TOKEN_EOF included, stops the program |
| Evaluator.DecimalValueLeadingZero | c_tree.cpp:13-16 | leading zeros do not change the value of a literal |
| Evaluator.LiteralValue | c_tree.cpp:13-16 | a literal converts exactly when it is a digit run that fits an int, to its decimal value |
| Evaluator.Checked | c_tree.cpp:17-43 | an int result is defined exactly when it fits |
| Evaluator.Apply | c_tree.cpp:17-43 | +, - and * give a+b, a-b and a*b, failing exactly when that overflows an int; / and % give the truncated quotient and remainder, failing exactly on a zero divisor or an overflowing quotient; the remainder recomposes the dividend, is smaller than the divisor and has the dividend's sign |
| Evaluator.Evaluate | c_tree.cpp:11-46 | every value evaluate produces fits an int |
| Evaluator.EvaluateLiteral | c_tree.cpp:13-16 | a literal leaf evaluates to the value of its text, failing when it does not convert |
| Evaluator.EvaluateNegation | c_tree.cpp:21-26 | a negation fails when its operand fails or is INT_MIN, and otherwise is the negated value |
| Evaluator.EvaluateOther | c_tree.cpp:44-45 | a null node fails; a node of any other token kind evaluates to 0 |
| Evaluator.EvaluateBinary | c_tree.cpp:17-43 | a binary node's value is its operator applied to the operands' values |
| Evaluator.DoubleNegation | c_tree.cpp:21-26 | negating twice gives the value back except for INT_MIN, whose negation overflows |
| Evaluator.DivisionByZero | c_tree.cpp:36-43 | a division or remainder by zero never evaluates |
| MachineInt.Wrap | c_gen.cpp:254 | the int with the same value modulo 2^32, the identity on ints |
| MachineInt.TruncatedDivision | c_tree.cpp:36-43 | truncating division and remainder recompose the dividend; the remainder is smaller than the divisor and has the dividend's sign |
| MachineInt.TruncatedIsEuclidean | c_tree.cpp:36-43 | for non-negative operands truncating and Euclidean division agree |
| StackCode.OperatorCode | c_tree.cpp:253-278 | an operator contributes code exactly for the six arithmetic kinds, at most three instructions and never a PUSH or POP |
| StackCode.EmitOperator | c_tree.cpp:253-278 | the switch appends exactly the operator's instructions |
| StackCode.GeneratedCode | c_tree.cpp:237-281 | the instructions of a tree: nothing for a null node, PUSH for an integer literal, otherwise left, right, two POPs, the operator and PUSH (a definition; GeneratedCodeEvaluates and PushPopBalance state it) |
| StackCode.InstructionList.PushBack | c_tree.cpp:241-280 | push_back appends one instruction |
| StackCode.PushPopBalance | c_tree.cpp:241-280 | on every arithmetic tree, whether or not it evaluates, the code has exactly one PUSH more than POPs |
| StackCode.GenerateCode | c_tree.cpp:237-281 | the vector grows by exactly the code of the tree |
| StackCode.StepPushLiteral | c_tree.cpp:241-245 | PUSH of a literal's text pushes its value |
| StackCode.Pops | c_tree.cpp:250-251 | the two POPs move the top of the stack into EBX and the value below it into EAX |
| StackCode.AdditiveRuns | c_tree.cpp:255-263 | ADD, SUB and IMUL leave the evaluated result in EAX |
| StackCode.DivisionRuns | c_tree.cpp:264-267 | CDQ and IDIV leave the truncated quotient in EAX and the remainder in EDX |
| StackCode.QuotientRuns | c_tree.cpp:264-272 | the division and remainder code leave the evaluated result in EAX |
| StackCode.OperatorStep | c_tree.cpp:250-280 | the pops, the operator and the PUSH replace the two operands by their result |
| StackCode.GeneratedCodeEvaluates | c_tree.cpp:237-281 | on an arithmetic tree that evaluates, the code runs and leaves exactly the value on top of the stack |
| StackCode.NegationCode | c_tree.cpp:247-281 | a negation of a literal is compiled to PUSH, POP, POP, SUB, PUSH |
| StackCode.NegationUnderflows | c_tree.cpp:247-281 | on an empty stack that code fails: it pops two values of which only one was pushed |
| StackCode.NegationBorrows | c_tree.cpp:247-281 | on a non-empty stack it consumes the value below and pushes that value minus the literal |
| X86.LE32 | c_gen.cpp:29-35 | append_int32 writes four bytes |
| X86.LE32RoundTrip | c_gen.cpp:29-35 | decoding the four bytes of an int gives the int back |
| X86.FromLE32RoundTrip | c_gen.cpp:29-35 | encoding four decoded bytes gives them back |
| X86.SetccOpcode | c_gen.cpp:151-181 | setcc_al has a condition exactly for the six comparisons |
| X86.JccOpcode | c_gen.cpp:183-219 | jcc_rel32 has a condition exactly for the comparisons and the logical kinds, and it is a Jcc rel32 opcode 80..8F |
| X86.JccNegation | c_gen.cpp:189-208 | for a comparison, jumping on false uses the negated condition |
| X86.SetccMatchesJcc | c_gen.cpp:151-208 | for a comparison, SETcc and Jcc test the same condition |
| X86.JccLogicalIgnoresOperator | c_gen.cpp:209-211 | for a logical kind the jump is JNE on true and JE on false, whichever kind |
| CodeImage.Emit | c_gen.cpp:29-149 | appending bytes (a definition; EmitGrows and EmitResolves state it) |
| CodeImage.NewLabel | c_gen.cpp:10-13 | new_label (a definition; CodeGen.NewLabel is proved to compute it) |
| CodeImage.PlaceLabel | c_gen.cpp:15-22 | place_label (a definition; CodeGen.PlaceLabel is proved to compute it) |
| CodeImage.AddJumpPatch | c_gen.cpp:24-27 | add_jump_patch (a definition; CodeGen.AddJumpPatch is proved to compute it) |
| CodeImage.MovEaxImm | c_gen.cpp:37-41 | the bytes of mov_eax_imm (a definition) |
| CodeImage.MovEaxVar | c_gen.cpp:43-54 | the bytes of mov_eax_var (a definition) |
| CodeImage.MovVarEax | c_gen.cpp:56-67 | the bytes of mov_var_eax (a definition) |
| CodeImage.SetccAl | c_gen.cpp:151-181 | the bytes of setcc_al (a definition; SetccOpcode states the table) |
| CodeImage.JccRel32 | c_gen.cpp:183-219 | jcc_rel32 (a definition; JccAppends states it) |
| CodeImage.JmpRel32 | c_gen.cpp:221-226 | jmp_rel32 (a definition; JmpAppends states it) |
| CodeImage.SlotAccess | c_gen.cpp:43-67 | the opcode, ModRM 85 and the slot displacement -4*(index+1), or CC for an index outside the table (a definition; CodeGen.MovEaxVar and CodeGen.MovVarEax are proved to append it) |
| CodeImage.JccBytes | c_gen.cpp:183-219 | the bytes jcc_rel32 appends (a definition; JccAppends connects it to JccRel32) |
| CodeImage.ArithBytes | c_gen.cpp:307-328 | the operator bytes of the arithmetic case (a definition; ArithmeticSwitchBytes states it) |
| CodeImage.StoiDefined | c_gen.cpp:280 | the literals stoi converts, the same domain as LiteralValue (a definition; through LiteralsFit, GenThrown states it) |
| CodeImage.SkippedAssign | c_gen.cpp:370-376 | an ASSIGN whose left side is not an identifier returns at once (a definition; AssignSwitchBytes and Gen use it) |
| CodeImage.LiteralsFit | c_gen.cpp:271-443 | every literal the generation reaches converts (a definition; GenThrown proves it is exactly the non-throwing case) |
| CodeImage.OwnFits | c_gen.cpp:277-437 | the literals the switch reaches convert (a definition; SwitchThrown states it) |
| CodeImage.Gen | c_gen.cpp:271-443 | generate_node_code as a function (a definition; GenBytes, GenThrown, GenGrows and GenResolves state it) |
| CodeImage.GenSwitch | c_gen.cpp:277-437 | the switch of generate_node_code (a definition; SwitchGenBytes, SwitchGrows and SwitchResolves state it) |
| CodeImage.GenOperands | c_gen.cpp:303-306 | the operands of a binary node (a definition; OperandsBytes states it) |
| CodeImage.GenShortCircuit | c_gen.cpp:349-368 | AND and OR (a definition; AndBytes, OrBytes and ShortCircuitResolves state it) |
| CodeImage.GenIf | c_gen.cpp:395-415 | IF (a definition; IfBytes, IfThenResolves and IfElseResolves state it) |
| CodeImage.GenWhile | c_gen.cpp:416-429 | WHILE (a definition; WhileBytes and WhileResolves state it) |
| CodeImage.NodeBytes | c_gen.cpp:271-443 | the bytes generate_node_code appends for a tree, independent of the state (a definition; GenBytes connects it to Gen) |
| CodeImage.SwitchBytes | c_gen.cpp:277-437 | the bytes of each case of the switch (a definition; SwitchGenBytes connects it to GenSwitch) |
| CodeImageProperties.JccAppends | c_gen.cpp:183-219 | jcc_rel32 appends its bytes and records a field right after the opcode exactly when there is a condition |
| CodeImageProperties.JmpAppends | c_gen.cpp:221-226 | jmp_rel32 appends E9 and a zero field and records the field |
| CodeImageProperties.GenBytes | c_gen.cpp:271-443 | generate_node_code appends the bytes of the node, whatever the state |
| CodeImageProperties.SwitchGenBytes | c_gen.cpp:277-437 | the switch appends the bytes of its case |
| CodeImageProperties.ArithmeticSwitchBytes | c_gen.cpp:297-329 | the arithmetic case appends exactly the bytes SwitchBytes gives it: right operand, PUSH EAX, left operand, POP EBX, the operator |
| CodeImageProperties.RelationalSwitchBytes | c_gen.cpp:330-344 | the comparison case appends exactly the bytes SwitchBytes gives it: the operands, CMP and SETcc |
| CodeImageProperties.NotSwitchBytes | c_gen.cpp:345-348 | the NOT case appends exactly the bytes SwitchBytes gives it: the operand and XOR AL, 1 |
| CodeImageProperties.PrintSwitchBytes | c_gen.cpp:381-386 | the PRINT and BLOCK cases append exactly the code of the left child |
| CodeImageProperties.AssignSwitchBytes | c_gen.cpp:370-379 | the ASSIGN case appends exactly the code of the right side and the store to the slot |
| CodeImageProperties.LeafSwitchBytes | c_gen.cpp:279-295 | literals, strings, identifiers, READ, INT4 and unknown kinds append exactly their immediate, load or nothing |
| CodeImageProperties.OperandsBytes | c_gen.cpp:303-306 | the operands of a binary node in the order right, push, left, pop |
| CodeImageProperties.AndBytes | c_gen.cpp:349-358 | the AND case appends exactly: left, TEST AL, AL, the conditional jump, right |
| CodeImageProperties.OrBytes | c_gen.cpp:359-368 | the OR case appends exactly: left, TEST AL, AL, the conditional jump, right |
| CodeImageProperties.IfBytes | c_gen.cpp:395-415 | the IF case appends exactly: the condition, the test and jump, the body, and the else branch behind a JMP when there is one |
| CodeImageProperties.IfThenBytes | c_gen.cpp:401-413 | the IF case without an else branch appends exactly its bytes |
| CodeImageProperties.IfElseBytes | c_gen.cpp:401-413 | the IF case with an else branch appends exactly its bytes |
| CodeImageProperties.WhileBytes | c_gen.cpp:416-429 | the WHILE case appends exactly: JMP to the test, the body, the condition, the test and the jump back |
| CodeImageProperties.GenThrown | c_gen.cpp:280 | generation throws exactly when it reaches an integer literal stoi rejects |
| CodeImageProperties.SwitchThrown | c_gen.cpp:277-437 | the switch throws on a bad literal it visits |
| CodeImageGrowth.EmitGrows | c_gen.cpp:29-149 | appending bytes keeps the layout invariant |
| CodeImageGrowth.NewLabelGrows | c_gen.cpp:10-13 | new_label keeps the invariant |
| CodeImageGrowth.PlaceGrows | c_gen.cpp:15-22 | placing a handed-out label keeps the invariant |
| CodeImageGrowth.JccGrows | c_gen.cpp:183-219 | a conditional jump to a handed-out label keeps the invariant |
| CodeImageGrowth.JmpGrows | c_gen.cpp:221-226 | an unconditional jump to a handed-out label keeps the invariant |
| CodeImageGrowth.GenGrows | c_gen.cpp:271-443 | generate_node_code keeps the fields inside the code, disjoint, and aimed at handed-out labels |
| CodeImageGrowth.SwitchGrows | c_gen.cpp:277-437 | the switch keeps the invariant |
| CodeImageGrowth.ArithmeticGrows | c_gen.cpp:297-329 | the arithmetic case keeps the layout invariant |
| CodeImageGrowth.RelationalGrows | c_gen.cpp:330-344 | the comparison case keeps the invariant |
| CodeImageGrowth.NotGrows | c_gen.cpp:345-348 | the NOT case keeps the invariant |
| CodeImageGrowth.ChildGrows | c_gen.cpp:381-433 | the PRINT and BLOCK cases keep the invariant |
| CodeImageGrowth.AndGrows | c_gen.cpp:349-358 | the AND case keeps the invariant |
| CodeImageGrowth.OrGrows | c_gen.cpp:359-368 | the OR case keeps the invariant |
| CodeImageGrowth.IfGrows | c_gen.cpp:395-415 | the IF case keeps the invariant, with or without an else branch |
| CodeImageGrowth.WhileSwitchGrows | c_gen.cpp:416-429 | the WHILE case keeps the invariant |
| CodeImageGrowth.JumpOverGrows | c_gen.cpp:349-368 | AND and OR hand out their end label before jumping to it |
| CodeImageGrowth.IfThenGrows | c_gen.cpp:395-415 | IF hands out both labels before the jumps to them |
| CodeImageGrowth.IfElseGrows | c_gen.cpp:395-415 | IF with an else branch keeps the invariant |
| CodeImageGrowth.WhileGrows | c_gen.cpp:416-429 | WHILE hands out both labels before the jumps to them |
| CodeImageTargets.PlaceResolves | c_gen.cpp:15-22 | placing a pending label resolves every jump to it, and no placed label is lost |
| CodeImageTargets.JccResolves | c_gen.cpp:183-219 | a conditional jump to a placed or pending label keeps every jump resolved |
| CodeImageTargets.JmpResolves | c_gen.cpp:221-226 | an unconditional jump to a placed or pending label keeps every jump resolved |
| CodeImageTargets.GenResolves | c_gen.cpp:271-443 | generate_node_code leaves no jump of its own pending: every jump it records targets a label placed by the end |
| CodeImageTargets.SwitchResolves | c_gen.cpp:277-437 | each case of the switch places the labels it jumps to |
| CodeImageTargets.ShortCircuitResolves | c_gen.cpp:349-368 | AND and OR place their end label after the jump to it |
| CodeImageTargets.IfThenResolves | c_gen.cpp:395-415 | IF without an else branch places its end label |
| CodeImageTargets.IfElseResolves | c_gen.cpp:395-415 | IF with an else branch places its else and end labels |
| CodeImageTargets.WhileResolves | c_gen.cpp:416-429 | WHILE places its test label, and its jump back goes to its placed start label |
| CodeImageTargets.AllTargetsPlaced | c_gen.cpp:271-443 | from a state without jumps, every jump target is placed after generation |
| Relocation.Relocate | c_gen.cpp:228-269 | the loop of jump over the fields in increasing offset order (a definition; RelocateOutside and RelocateField state it) |
| Relocation.FieldBytes | c_gen.cpp:235-267 | four bytes decoding to the distance, modulo 2^32, from the end of the field to its label, or CC CC CC CC for an unplaced label |
| Relocation.Overwrite | c_gen.cpp:256-259 | only the bytes of the field change |
| Relocation.RelocateOutside | c_gen.cpp:228-269 | jump leaves every byte outside the fields as it was |
| Relocation.RelocateField | c_gen.cpp:228-269 | when fields do not overlap, jump leaves each field holding its own displacement |
| Relocation.LE32Wrap | c_gen.cpp:254-259 | the bytes written depend only on the value modulo 2^32 |
| Relocation.WriteField | c_gen.cpp:256-259 | the four single-byte stores write the field |
| CodeGenerator.CodeGen.constructor | c_gen.cpp:8 | the code_gen starts with the caller's bytes, counter 0 and no fields or labels |
| CodeGenerator.CodeGen.NewLabel | c_gen.cpp:10-13 | returns the old counter and increments it |
| CodeGenerator.CodeGen.PlaceLabel | c_gen.cpp:15-22 | the label stands for the current end of the code; a later placement wins |
| CodeGenerator.CodeGen.AddJumpPatch | c_gen.cpp:24-27 | records the field for the target label |
| CodeGenerator.CodeGen.AppendInt32 | c_gen.cpp:29-35 | appends the little-endian bytes of the value |
| CodeGenerator.CodeGen.MovEaxImm | c_gen.cpp:37-41 | appends B8 and the immediate |
| CodeGenerator.CodeGen.MovEaxVar | c_gen.cpp:43-54 | appends 8B 85 and the slot's displacement, or CC for an index outside the table |
| CodeGenerator.CodeGen.MovVarEax | c_gen.cpp:56-67 | appends 89 85 and the slot's displacement, or CC for an index outside the table |
| CodeGenerator.CodeGen.PushEax | c_gen.cpp:69-72 | appends 50 |
| CodeGenerator.CodeGen.PopEax | c_gen.cpp:73-76 | appends 58 |
| CodeGenerator.CodeGen.PushEbx | c_gen.cpp:77-80 | appends 53 |
| CodeGenerator.CodeGen.PopEbx | c_gen.cpp:81-84 | appends 5B |
| CodeGenerator.CodeGen.AddEaxEbx | c_gen.cpp:85-89 | appends 01 D8 |
| CodeGenerator.CodeGen.SubEaxEbx | c_gen.cpp:90-94 | appends 29 D8 |
| CodeGenerator.CodeGen.ImulEaxEbx | c_gen.cpp:95-100 | appends 0F AF C3 |
| CodeGenerator.CodeGen.Cdq | c_gen.cpp:101-104 | appends 99 |
| CodeGenerator.CodeGen.IdivEbx | c_gen.cpp:105-109 | appends F7 FB |
| CodeGenerator.CodeGen.XchgEaxEbx | c_gen.cpp:110-113 | appends 93 |
| CodeGenerator.CodeGen.CmpEaxEbx | c_gen.cpp:114-118 | appends 39 D8 |
| CodeGenerator.CodeGen.TestAlImm8 | c_gen.cpp:119-123 | appends A8 and the immediate |
| CodeGenerator.CodeGen.TestAlAl | c_gen.cpp:124-128 | appends 84 C0 |
| CodeGenerator.CodeGen.XorAlImm8 | c_gen.cpp:129-133 | appends 34 and the immediate |
| CodeGenerator.CodeGen.MovzxEaxAl | c_gen.cpp:134-139 | appends 0F B6 C0 |
| CodeGenerator.CodeGen.NegEax | c_gen.cpp:140-144 | appends F7 D8 |
| CodeGenerator.CodeGen.MovEaxEdx | c_gen.cpp:145-149 | appends 89 D0 |
| CodeGenerator.CodeGen.SetccAl | c_gen.cpp:151-181 | appends 0F, the SETcc byte and C0, or 0F CC for an operator without a condition |
| CodeGenerator.CodeGen.JccRel32 | c_gen.cpp:183-219 | appends 0F, the Jcc byte and a zero field recorded for the label, or 0F CC and no field |
| CodeGenerator.CodeGen.JmpRel32 | c_gen.cpp:221-226 | appends E9 and a zero field recorded for the label |
| CodeGenerator.CodeGen.PatchField | c_gen.cpp:232-267 | one iteration of jump overwrites exactly the field's four bytes with FieldBytes and changes nothing else |
| CodeGenerator.CodeGen.Jump | c_gen.cpp:228-269 | the loop over the fields in increasing order computes Relocate and changes only the bytes |
| CodeGenerator.CodeGen.GenerateNodeCode | c_gen.cpp:271-443 | the new state is Gen of the old one |
| CodeGenerator.CodeGen.GenerateSwitch | c_gen.cpp:277-437 | the new state is GenSwitch of the old one |
| CodeGenerator.CodeGen.GenerateArithmetic | c_gen.cpp:297-329 | the arithmetic case, as GenSwitch |
| CodeGenerator.CodeGen.GenerateComparison | c_gen.cpp:330-344 | the comparison case, as GenSwitch |
| CodeGenerator.CodeGen.GenerateShortCircuit | c_gen.cpp:349-368 | the AND and OR cases, as GenSwitch |
| CodeGenerator.CodeGen.GenerateIf | c_gen.cpp:395-415 | the IF case, as GenSwitch |
| CodeGenerator.CodeGen.GenerateWhile | c_gen.cpp:416-429 | the WHILE case, as GenSwitch |
| CodeGenerator.VarCount | c_gen.cpp:454-461 | the number of variables is at most the number of symbols; it is 0 exactly when no symbol is a variable and all of them exactly when every symbol is |
| CodeGenerator.Prologue | c_gen.cpp:450-467 | the prologue bytes (a definition; EmitPrologue is proved to append them) |
| CodeGenerator.Generated | c_gen.cpp:450-468 | after the prologue and generation the layout invariant holds above the prologue |
| CodeGenerator.CountLocalVars | c_gen.cpp:454-461 | the loop counts the variables among the symbols |
| CodeGenerator.EmitPrologue | c_gen.cpp:450-467 | PUSH EBX, PUSH EBP, MOV EBP, ESP, and SUB ESP with four bytes per variable when there is any |
| CodeGenerator.EmitEpilogue | c_gen.cpp:472-475 | appends MOV ESP, EBP, POP EBP, POP EBX, RET and leaves the label counter, fields and labels as they were |
| CodeGenerator.ProgramCode | c_gen.cpp:445-476 | generate_program_code as a function: Failure when stoi throws, otherwise prologue, linked code and epilogue (a definition; GenerateProgramCode computes it, ProgramCodeProperties states it) |
| CodeGenerator.GenerateProgramCode | c_gen.cpp:445-476 | the bytes are the prologue, the linked code of the program and the epilogue |
| ProgramCodeProperties.ProgramCodeFails | c_gen.cpp:445-476 | generate_program_code fails exactly when stoi throws on a literal it reaches |
| ProgramCodeProperties.ProgramCodeFrame | c_gen.cpp:445-476 | the code is as long as prologue, program and epilogue, and linking leaves the prologue and epilogue intact |
| ProgramCodeProperties.ProgramCodeOutsideFields | c_gen.cpp:228-269 | outside the fields the code holds the bytes the emitters wrote |
| ProgramCodeProperties.ProgramCodeField | c_gen.cpp:228-269 | every field lies in the program's code and holds what jump writes for it |
| ProgramCodeProperties.ProgramCodeTargetsPlaced | c_gen.cpp:445-476 | every jump of the generated program targets a placed label |
| ProgramCodeProperties.ProgramCodeJumpTarget | c_gen.cpp:235-259 | every jump targets a placed label, and its field decodes to the distance, modulo 2^32, from the end of the field to the label |

## Left out

- Opening and loading the file (`buffer_init`, `lex_init`), `buffer_cleanup` and `lex_cleanup`: file I/O. The reader is constructed with its text.
- Messages written to `cerr` and `cout` are left out: the lexer's string diagnostics, the warning for a label placed twice, the unknown-jump warning of `jump`, the `mov_eax_var`/`mov_var_eax` errors, and `print_tree` and `instruction::print`. Only their effect on the state is modelled.
- The process exit in `parse::error` and in `parse_factor` is `ParseError`. A lexer failure that `next_token` turns into an exit is not modelled, because the parser reads an already lexed token sequence.
- CodeImage.StoiDefined: accepts only non-empty digit runs that fit an int, which is narrower than `std::stoi` (that also skips leading whitespace, takes a sign and ignores trailing characters, so "5x" gives 5). The lexer only ever produces digit runs as `TOKEN_INTEGER` text, so the two agree on every literal that reaches the generator.
- Each character of the text stands for one byte of the file, which `buffer.cpp` reads in binary mode into a `vector<char>`. `IsAlpha` and `IsDigit` classify ASCII only, so a byte of 0x80 or above is neither a letter nor a digit; `isalpha` and `isalnum` on such a negative `char` are undefined behaviour in C++.
- Real literals: the lexer never produces `TOKEN_REAL`. `stod` on such text and floating point in `evaluate` are not modelled. `LiteralValue` accepts digit runs only.
- Evaluator.Evaluate: its own contract only bounds the result; what it computes is stated case by case by EvaluateLiteral, EvaluateNegation, EvaluateBinary and EvaluateOther, and further by DoubleNegation, DivisionByZero and the machine in GeneratedCodeEvaluates.
- CodeGenerator.CodeGen.GenerateNodeCode: requires every literal it reaches to fit `stoi`. The exception that `stoi` throws otherwise is modelled only in the functional `Gen`, as the `thrown` flag, and by `GenThrown`.
- CodeGenerator.GenerateProgramCode: requires every literal to fit `stoi`, for the same reason. ProgramCodeFails states the failing case.
- CodeGenerator.CodeGen.Jump: requires every field to lie inside the bytes. `vector` indexing is unchecked in C++, and `GenGrows` proves this for every generated program.
- Per-construct landing addresses are not proved. `AllTargetsPlaced` proves that every jump targets a placed label, and `ProgramCodeJumpTarget` that its field holds the distance to that label. The model does not prove which address each AND, OR, IF and WHILE label ends up at. Stating that needs a relational invariant between the states before and after generation.
- The machine code is never executed. Only its bytes, fields and displacements are stated; the x86 semantics of the emitted program is not.
- `int` overflow of `local_var_space` or of a slot offset is not modelled. It would need more than 500 million symbols.
- `generate_program_code` writes into a vector the caller passes by reference. `GenerateProgramCode` returns the bytes instead. `code_gen` holds references to the caller's vectors, and that aliasing is not modelled.
- The `symbols` vector of `code_gen` is reduced to its size, `symbolCount`, which is the only part the emitters read.
- The `setcc_al` and `jcc_rel32` methods read their condition bytes from `X86.SetccOpcode` and `X86.JccOpcode`, so that the table is defined once, instead of repeating the `switch`.
