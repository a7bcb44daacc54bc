# Expression compiler, modelled in Dafny

The repository is a small compiler for arithmetic expressions and single
assignments such as `x = 3 + 4 * 2`. Its stages are:

- a regular-expression lexer (`lexer.py`) producing `(kind, value)` pairs;
- a declared-before-use check over those pairs (`compiler/semantic.py`);
- three Shunting-Yard converters from infix to postfix:
  - `compiler/infix_to_postfix.py`, with its own number-only lexer and
    `compile_expression` wrapper, copied almost verbatim as
    `Compiler/infix_to_postfix.py`;
  - `compiler/parser.py`, which takes `lexer.py`'s token kinds and emits `=`
    where it stands;
  - the one in `compiler/app.py`, which puts `=` in its precedence table;
- a stack-machine code generator (`Compiler/codegen.py`);
- the self-contained pipeline of `compiler/app.py`: token values, a legality
  check, its own converter, a `PUSH`-for-every-operand generator, a postfix
  to syntax-tree builder and the `compile_code` wrapper.

Each Python function that loops over lists is a Dafny `method` with the same
loops. Its `ensures` ties the result to a specification function: a scanner
`Lex`, or a step function `Step` folded by `Run` over a state of output list
and operator stack. The properties the code promises are proved as lemmas
about those functions. Python exceptions become variants of an error
datatype inside `Result`.

The meaning of the Shunting-Yard conversion is stated against an
independent reference: a grammar of terms (numbers, parenthesised groups,
binary applications) together with a grouping rule derived from the
precedence and associativity tables. Every well-formed infix token list is
spelled by a grouped term, and all grouped terms spelling it have the same
syntax tree. The conversion outputs the post-order reading of that tree.

Modules, one per source file, plus shared helpers:

| module | file | models |
|---|---|---|
| `Results` | results.dfy | `Option`, `Result` |
| `Text` | text.dfy | ASCII character classes, joining and splitting, filtering |
| `Lexer` | lexer.dfy | lexer.py |
| `Operators` | operators.dfy | the `precedence`/`assoc` tables shared by three files |
| `InfixToPostfix`, `InfixToPostfixFacts` | infix_to_postfix.dfy, infix_to_postfix_facts.dfy | compiler/infix_to_postfix.py |
| `InfixToPostfixTree` | infix_to_postfix_tree.dfy | what compiler/infix_to_postfix.py computes, against a reference grammar with syntax trees |
| `InfixToPostfixCopy` | infix_to_postfix_copy.dfy | Compiler/infix_to_postfix.py, proved against the same specification |
| `Parser`, `ParserFacts` | parser.dfy, parser_facts.dfy | compiler/parser.py |
| `CodeGen` | codegen.dfy | Compiler/codegen.py |
| `Semantic` | semantic.dfy | compiler/semantic.py |
| `Ast` | ast.dfy | `ASTNode`, `to_dict` and `build_ast` of compiler/app.py |
| `App`, `AppFacts` | app.dfy, app_facts.dfy | the rest of compiler/app.py |

Behaviour of the code worth knowing:

- `build_ast` returns the bottom node of its stack and silently ignores any
  nodes left above it (`Ast.LeftoverIgnored`).
- The lexer's error names only the character, not its position.
- `compiler/parser.py` and `compiler/app.py` do not report an unclosed `(`.
  It is flushed into the postfix list (`ParserFacts.UnclosedParenthesisKept`,
  `AppFacts.ParenthesisCases`).
- In `lexer.py` a newline matches no alternative, not even `MISMATCH`, so it
  is silently dropped (`Lexer.NewlineIsDropped`).
- `compiler/semantic.py` declares the target before reading the right-hand
  side, so `x = x + 1` passes (`Semantic.SelfAssignment`).

## Model

| member | source | states |
|---|---|---|
| Text.DigitsAreNotIdentifiers | Compiler/codegen.py:4-7 | no string is both a digit string and an identifier, so the `isdigit` and `isidentifier` branches never compete |
| Text.SplitJoin | compiler/infix_to_postfix.py:81 | joining space-free, non-empty entries with single spaces and splitting the text at spaces gives the entries back |
| Lexer.Tokenize | lexer.py:14-26 | the `finditer` loop returns exactly `Lex(code)`: first-match alternatives, greedy digit, identifier and blank runs, a blank run skipped, an illegal character raising |
| Lexer.LexWellFormed | lexer.py:3-9 | every emitted token's value is accepted by its kind's pattern |
| Lexer.LexSpelling | lexer.py:15-26 | on success the tokens' values, concatenated in order, are the input with blanks, tabs and newlines removed |
| Lexer.LexFailsIff | lexer.py:11 | lexing fails exactly when the input holds a character that is no digit, letter, `_`, operator, `=`, parenthesis, blank or newline; the error names the first such character |
| Lexer.LexNumber | lexer.py:4 | a maximal digit run becomes one NUMBER token followed by the lexing of the rest |
| Lexer.LexIdentifier | lexer.py:5 | a maximal identifier run becomes one ID token followed by the lexing of the rest |
| Lexer.NumberBeforeName | lexer.py:4-5 | `3x` lexes as NUMBER `3`, then ID `x` |
| Lexer.NewlineIsDropped | lexer.py:10-11 | `a\nb` lexes as two IDs with no error |
| Lexer.AmpersandIsIllegal | lexer.py:22-23 | `3 & 4` fails naming `&` |
| Lexer.LexUnlex | lexer.py:14-26 | any list of well-formed tokens, written with one space between tokens, lexes back to exactly that list |
| Operators.Precedence | compiler/infix_to_postfix.py:42 | every operator of the table has a precedence from 1 to 3 |
| Operators.OperatorsAreNotOperands | compiler/parser.py:1 | no key of the tables is a digit string or an identifier |
| InfixToPostfix.Tokenize | compiler/infix_to_postfix.py:7-39 | the lexer loop returns exactly `Lex(expression)` |
| InfixToPostfix.LexWellFormed | compiler/infix_to_postfix.py:8-15 | every token matches its kind's pattern, and every OPERATOR is a key of both tables |
| InfixToPostfix.LexFailsIff | compiler/infix_to_postfix.py:36-37 | lexing fails exactly when some character is no digit, operator, parenthesis or whitespace; the error names the first such character |
| InfixToPostfix.LettersAreRejected | compiler/infix_to_postfix.py:36-37 | a letter or `=` anywhere makes the lexer fail |
| InfixToPostfix.LexSpelling | compiler/infix_to_postfix.py:34-35 | on success the token values, in order, are the input with whitespace removed |
| InfixToPostfix.InfixToPostfix | compiler/infix_to_postfix.py:46-81 | the Shunting-Yard loops return exactly the joined result of the `Run` specification, or its mismatched-parentheses error |
| InfixToPostfix.CompileExpression | compiler/infix_to_postfix.py:84-90 | returns the postfix text, or `Syntax Error: ` followed by the message of whichever stage failed |
| InfixToPostfixTree.GroupedPostfix | compiler/infix_to_postfix.py:46-79 | converting the spelling of a grouped term outputs the post-order reading of its syntax tree, which puts each operator after both of its operands |
| InfixToPostfixTree.PostfixOfWellFormed | compiler/infix_to_postfix.py:46-79 | every well-formed infix token list is spelled by a grouped term, and the conversion outputs the post-order reading of that term's tree |
| InfixToPostfixTree.SpellingIsWellFormed | compiler/infix_to_postfix.py:46-79 | conversely, every term is spelled by a well-formed infix token list |
| InfixToPostfixTree.GroupingIsUnique | compiler/infix_to_postfix.py:42-43 | two grouped terms with the same spelling have the same tree, so the tables determine the grouping |
| InfixToPostfixTree.TermSteps | compiler/infix_to_postfix.py:50-73 | reading a grouped term from a stack that none of its exposed operators pops leaves the finished subtrees on the output and the right spine's operators on the stack |
| InfixToPostfixTree.PopSpine | compiler/infix_to_postfix.py:55-63 | an incoming operator pops, in reverse, every operator stacked above it that it pops, and stops at a `(`, the bottom or an operator it does not pop |
| InfixToPostfixTree.PopSpineToParen | compiler/infix_to_postfix.py:69-70 | a `)` pops, in reverse, exactly the operators stacked above its `(`, leaving the `(` on top |
| InfixToPostfixTree.FlushSpine | compiler/infix_to_postfix.py:76-79 | the final loop appends the remaining operators in reverse |
| InfixToPostfixTree.ExtendGrouped | compiler/infix_to_postfix.py:55-64 | adding an operator and an operand to a grouped term, below the operators it does not pop, keeps the term grouped |
| InfixToPostfixTree.ExtendSpelling | compiler/infix_to_postfix.py:55-64 | that addition spells the term followed by the operator and the operand |
| InfixToPostfixTree.ParseExprOk | compiler/infix_to_postfix.py:50-73 | the reference parser reads a grouped term from any infix token list that is well-formed up to an unopened `)` or the end, and leaves the rest |
| InfixToPostfixCopy.Tokenize | Compiler/infix_to_postfix.py:8-32 | the second copy's lexer returns the same result as the first |
| InfixToPostfixCopy.InfixToPostfix | Compiler/infix_to_postfix.py:38-64 | the second copy's conversion returns the same result as the first |
| InfixToPostfixCopy.CompileExpression | Compiler/infix_to_postfix.py:67-73 | the second copy's wrapper returns the same text as the first |
| InfixToPostfixFacts.PostfixOkIff | compiler/infix_to_postfix.py:67-78 | conversion succeeds exactly when the parentheses are balanced (no prefix closes more than it opened, and all close at the end); otherwise the error is mismatched parentheses |
| InfixToPostfixFacts.PostfixOperands | compiler/infix_to_postfix.py:51-52 | the output is a permutation of the input's numbers and operators, and the numbers appear in input order |
| InfixToPostfixFacts.PostfixContents | compiler/infix_to_postfix.py:50-81 | the output has one entry per NUMBER and OPERATOR token, holds no parenthesis, and its operands keep input order |
| InfixToPostfixFacts.WellFormedInfixConverts | compiler/infix_to_postfix.py:46-81 | a well-formed infix expression converts to a postfix list that a stack evaluator reduces to exactly one value |
| InfixToPostfixFacts.TwoOperators | compiler/infix_to_postfix.py:55-64 | `a p b q c` becomes `a b p c q` when `p` pops before `q` is pushed, and `a b c q p` otherwise |
| InfixToPostfixFacts.TighterFirst | compiler/infix_to_postfix.py:41-62 | `a p b q c` with `p` of higher precedence than `q` becomes `a b p c q`, so `p` is applied first |
| InfixToPostfixFacts.TighterLast | compiler/infix_to_postfix.py:41-62 | `a p b q c` with `q` of higher precedence than `p` becomes `a b c q p`, so `q` is applied first |
| InfixToPostfixFacts.EqualGroupLeft | compiler/infix_to_postfix.py:41-62 | two left-associative operators of equal precedence group to the left: `a b p c q` |
| InfixToPostfixFacts.PowerGroupsRight | compiler/infix_to_postfix.py:42-59 | `a ^ b ^ c` becomes `a b c ^ ^`, grouping to the right |
| InfixToPostfixFacts.ParenthesesGroupFirst | compiler/infix_to_postfix.py:65-73 | `( a p b ) q c` becomes `a b p c q` whatever the two operators |
| InfixToPostfixFacts.PostfixTextIsNotError | compiler/infix_to_postfix.py:81 | a successful conversion's text never begins with `Syntax Error: ` |
| InfixToPostfixFacts.CompileFailsIff | compiler/infix_to_postfix.py:84-90 | `compile_expression` returns an error text exactly when lexing or conversion fails |
| Parser.InfixToPostfix | compiler/parser.py:4-28 | the loops return exactly the `Parse` specification of the token list |
| ParserFacts.ParseOkIff | compiler/parser.py:18-23 | on lexed tokens conversion succeeds exactly when no `)` finds the stack without `(`; the only error is an unmatched parenthesis |
| ParserFacts.FlushReverses | compiler/parser.py:26-27 | the final loop appends the remaining stack in reverse, `(` included |
| ParserFacts.UnclosedParenthesisKept | compiler/parser.py:26-27 | `( a` succeeds with `a (`, so an unclosed `(` is not reported |
| ParserFacts.UnknownOperatorKeyError | compiler/parser.py:10-12 | an OP token outside the tables fails with a KeyError naming it, once the stack holds an operator |
| ParserFacts.ParseAgrees | compiler/parser.py:4-28 | on lexed tokens with balanced parentheses, the result equals that of the compiler/infix_to_postfix.py conversion |
| ParserFacts.ParseWellFormedInfix | compiler/parser.py:5-28 | a token list without `=` that is well-formed infix converts to a postfix expression holding every operand and operator exactly once, operands in input order |
| ParserFacts.RunPrefix | compiler/parser.py:7-8 | the output already written never influences the rest of the conversion |
| ParserFacts.Assignment | compiler/parser.py:24-25 | `x = e` converts to `x =` followed by the conversion of `e`, or to the same error |
| ParserFacts.AssignmentWellFormed | compiler/parser.py:5-28 | `x = e` with `e` well-formed converts to `x`, `=` and then a postfix expression holding every operand and operator of `e` exactly once, operands in the order of `e` |
| ParserFacts.ParseKeeps | compiler/parser.py:5-28 | on any tokens a successful conversion outputs every token's value once and `=` for each ASSIGN; no `)` is written, and each `)` removes exactly one `(` |
| ParserFacts.RunKeeps | compiler/parser.py:6-27 | from any state, output and stack together gain what each token contributes and lose one `(` per `)`, so the final output accounts for all of them |
| ParserFacts.ParseNames | compiler/parser.py:6-8 | on any lexed tokens a successful conversion writes the NUMBER and ID values straight through, in input order, whatever is left open or assigned around them |
| ParserFacts.RunNames | compiler/parser.py:6-27 | from any state whose stack holds only operators and `(`, the numbers and names gained on the output are the NUMBER and ID values read, in order |
| ParserFacts.TwoOperators | compiler/parser.py:9-15 | `a p b q c` becomes `a b p c q` when `q` pops `p`, else `a b c q p`, as in the other conversion |
| ParserFacts.TimesBindsTighter | compiler/parser.py:9-15 | `3 + 4 * 2` becomes `3 4 2 * +` |
| ParserFacts.AssignmentExample | compiler/parser.py:24-25 | `x = 3 + 4 * 2` becomes `x = 3 4 2 * +` |
| CodeGen.GenerateCode | Compiler/codegen.py:1-15 | the loop returns exactly `Generate(postfix)`, one emission per token in order |
| CodeGen.EmitsIff | Compiler/codegen.py:2-15 | a token produces an instruction exactly when it is a number, a name, one of the five operators or `=` |
| CodeGen.DecodeInstruction | Compiler/codegen.py:4-14 | each instruction decodes back to the token it came from: `PUSH n`, `LOAD x`, the mnemonic of the operator, `STORE` for `=` |
| CodeGen.DecodeGenerate | Compiler/codegen.py:2-15 | the instructions decode back to exactly the tokens that emit something, in order; there are never more instructions than tokens |
| CodeGen.GenerateAppend | Compiler/codegen.py:3 | code generation distributes over concatenation of postfix lists |
| CodeGen.Example | Compiler/codegen.py:3-12 | `3 4 2 * +` gives `PUSH 3, PUSH 4, PUSH 2, MUL, ADD` |
| CodeGen.ParenthesisEmitsNothing | Compiler/codegen.py:2-15 | a `(` left in the postfix list emits nothing |
| Semantic.CheckSemantics | compiler/semantic.py:1-8 | the loop returns exactly `Check(tokens)` |
| Semantic.DeclaredGrows | compiler/semantic.py:2-6 | the declared set starts empty and only grows |
| Semantic.DeclaredIff | compiler/semantic.py:5-6 | a name is declared before position `n` exactly when some earlier ID with that name is directly followed by ASSIGN |
| Semantic.CheckOkIff | compiler/semantic.py:3-8 | the check passes exactly when every ID is directly followed by ASSIGN or an earlier occurrence of the same name was |
| Semantic.CheckErrIff | compiler/semantic.py:7-8 | a failure names exactly the first token that does not pass, and that token is an ID |
| Semantic.TrailingName | compiler/semantic.py:5 | a name as the last token is never declared by itself; it passes only if assigned earlier |
| Semantic.UseBeforeDeclaration | compiler/semantic.py:7-8 | `x + 1` fails naming `x` |
| Semantic.SelfAssignment | compiler/semantic.py:3-8 | `x = x + 1` passes |
| Ast.PostOrder | compiler/app.py:44-53 | the post-order reading of a tree is non-empty and ends with the root's value |
| Ast.BuildAst | compiler/app.py:44-53 | the loop returns exactly `Build(postfix)` |
| Ast.FromToDict | compiler/app.py:11-16 | `to_dict` loses nothing: the tree can be read back from the dictionary |
| Ast.ToFromDict | compiler/app.py:11-16 | every dictionary that reads back as a tree is that tree's `to_dict` |
| Ast.BuildStackIff | compiler/app.py:46-52 | the node stack is built exactly when no operator finds fewer than two nodes; then its trees read back in post-order as the input, and the only error is a pop from an empty list |
| Ast.BuildIff | compiler/app.py:44-53 | `build_ast` succeeds exactly when every operator finds two nodes and the list is not empty; it fails popping an empty list when an operator lacks operands, and indexing out of range when the list is empty |
| Ast.SingleTree | compiler/app.py:53 | when exactly one node remains, the tree's post-order reading is the input list |
| Ast.BuildPostOrder | compiler/app.py:44-53 | building from the post-order reading of any tree returns that tree |
| Ast.LeftoverIgnored | compiler/app.py:53 | with two complete trees on the stack the first is returned and the second is ignored |
| Ast.RightPoppedFirst | compiler/app.py:50-52 | `1 2 -` builds `1 - 2`: the later subtree is the right child |
| Ast.BuildErrors | compiler/app.py:50-53 | an empty list fails indexing out of range, and `3 +` fails popping an empty list |
| App.CheckSemantics | compiler/app.py:70-74 | the loop returns exactly `Validate(tokens)` |
| App.Rank | compiler/app.py:28 | `precedence.get(t, -1)` is non-negative exactly for the keys of the table |
| App.InfixToPostfix | compiler/app.py:19-41 | the loops return exactly `Convert(tokens)` |
| App.GenerateCode | compiler/app.py:56-63 | the loop returns exactly `Instructions(postfix)` |
| App.CompileCode | compiler/app.py:77-87 | the pipeline returns exactly `Compile(expr)`: all four results, or the first stage's error |
| AppFacts.TokenValuesSpelling | compiler/app.py:66-67 | the extracted values, concatenated in order, spell the token list: nothing is lost, added or reordered |
| AppFacts.LexedValues | compiler/app.py:66-67 | the values of the lexed tokens, concatenated, are the input without blanks and newlines |
| AppFacts.ValidateIff | compiler/app.py:70-74 | the check passes exactly when every token is a digit string, an identifier or one of `+ - * / ( ) =`; a failure names the first other token |
| AppFacts.LexedValidate | compiler/app.py:71-74 | on lexed tokens the check fails exactly when a `^` occurs, and then names `^` |
| AppFacts.InstructionsDecode | compiler/app.py:56-63 | one instruction per entry, `PUSH t` for operands and the entry itself for symbols, and the instructions decode back to the postfix list |
| AppFacts.CodeExample | compiler/app.py:59-62 | `x 3 +` gives `PUSH x, PUSH 3, +` |
| AppFacts.ConvertAgrees | compiler/app.py:19-41 | without `=` or `^`, conversion succeeds exactly when every `)` finds its `(`, and then agrees with compiler/parser.py; otherwise it fails popping an empty list |
| AppFacts.CompileWellFormed | compiler/app.py:77-87 | a well-formed expression without `=` or `^` compiles; its postfix equals compiler/parser.py's, reduces to one value, is the post-order reading of the returned tree, and its instructions decode back to it |
| AppFacts.CompileErrors | compiler/app.py:77-87 | a `^` makes compilation fail on the invalid token; an unmatched `)` makes it fail in the conversion |
| AppFacts.Assignment | compiler/app.py:22 | with `=` at the bottom of the stack, `x = e` converts to `x`, then the conversion of `e`, then `=`, or to the same error |
| AppFacts.AssignmentTree | compiler/app.py:44-53 | `x`, a tree's post-order reading, then `=` builds the assignment node with `x` on the left and the tree on the right |
| AppFacts.CompileAssignment | compiler/app.py:77-87 | compiling `x = e` for a well-formed `e` gives the postfix `x`, compiler/parser.py's conversion of `e`, `=`, and an assignment tree whose right side reads back as that conversion |
| AppFacts.TimesBindsTighter | compiler/app.py:27-30 | `3 + 4 * 2` becomes `3 4 2 * +` |
| AppFacts.AssignmentExample | compiler/app.py:22 | `x = 3 + 4 * 2` becomes `x 3 4 2 * + =` |
| AppFacts.ParenthesisCases | compiler/app.py:33-39 | a lone `)` fails popping an empty list; `( 1` gives `1 (` with no error |

## Left out

- The Streamlit page, its CSS and `render_dot` (compiler/app.py:89-135). They are presentation, and `render_dot` depends on object identity and an optional import.
- Compiler/app.py and Compiler/main.py. They are user-interface and input/output plumbing around the modelled stages; Compiler/main.py is not part of this model.
- The `__main__` blocks, which read standard input and print.
- Python's `re` engine. Each token pattern is modelled directly as an ASCII character-class scan, with first-alternative-wins order and greedy runs.
- Non-ASCII characters for `\d`, `\s`, `str.isdigit`, `str.isidentifier` and `str.upper`. Only ASCII digits, letters, `_`, blanks and tabs are classified. The models' lexers therefore reject non-ASCII digits and whitespace that Python's `\d` and `\s` accept, such as `٣` in lexer.py:4 and U+00A0 in compiler/infix_to_postfix.py:14.
- Exact exception texts and types. Each exception is an error variant carrying its datum. The lexer error holds the character itself, not its `repr`.
- `App.Compile` returns the error variant instead of the text `Compilation Error: ...`. The tuple's `None` entries are the absence of an `Ok` value.
- CodeGen.Instruction: `token in '+-*/^'` is a substring test in the source. It is modelled as membership of a single operator character; no lexer produces an empty or multi-character token that would reach it.
- `ASTNode` is modelled as a datatype, because no field is changed after construction. A node with only one child is never built and is not represented.
- Determinism of repeated lexing holds because each stage is a function of its input; it is not stated as a separate lemma.
