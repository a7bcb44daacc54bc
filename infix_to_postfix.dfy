/**
 * compiler/infix_to_postfix.py: a lexer for numbers, operators and
 * parentheses, the Shunting-Yard conversion with its precedence and
 * associativity tables, and the `compile_expression` wrapper.
 *
 * The conversion is specified by `Run`, which takes one token at a time over
 * a `State` of output list and operator stack (top at the end), then flushes
 * the stack. The methods mirror the Python loops and are proved equal to it.
 */
module InfixToPostfix {
  import opened Results
  import opened Text
  import opened Operators

  datatype Kind = NUMBER | OPERATOR | LPAREN | RPAREN

  datatype Token = Token(kind: Kind, value: string)

  /** The two SyntaxErrors the module raises. */
  datatype SyntaxError = UnexpectedCharacter(c: char) | MismatchedParentheses

  // ---------------------------------------------------------------------
  // Lexer
  // ---------------------------------------------------------------------

  /** `\s` on ASCII: space, tab, newline, vertical tab, form feed, carriage return and the separators 28 to 31. */
  predicate IsSpace(c: char) {
    c == ' ' || (9 <= c as int <= 13) || (28 <= c as int <= 31)
  }

  /** A character at which some alternative other than MISMATCH matches. */
  predicate IsLegal(c: char) {
    IsDigit(c) || IsOpChar(c) || c == '(' || c == ')' || IsSpace(c)
  }

  /** What the pattern of each kind accepts. */
  predicate WellFormed(t: Token) {
    match t.kind
    case NUMBER => IsDigits(t.value)
    case OPERATOR => IsOperator(t.value)
    case LPAREN => t.value == "("
    case RPAREN => t.value == ")"
  }

  predicate AllWellFormed(ts: seq<Token>) {
    forall i :: 0 <= i < |ts| ==> WellFormed(ts[i])
  }

  /** The token list of `lexer(expression)`, or the first unexpected character. */
  function Lex(s: string): Result<seq<Token>, SyntaxError>
    decreases |s|
  {
    if s == [] then Ok([])
    else if IsDigit(s[0]) then
      var n := RunLength(IsDigit, s);
      PrependAll([Token(NUMBER, s[..n])], Lex(s[n..]))
    else if IsOpChar(s[0]) then PrependAll([Token(OPERATOR, s[..1])], Lex(s[1..]))
    else if s[0] == '(' then PrependAll([Token(LPAREN, s[..1])], Lex(s[1..]))
    else if s[0] == ')' then PrependAll([Token(RPAREN, s[..1])], Lex(s[1..]))
    else if IsSpace(s[0]) then Lex(s[RunLength(IsSpace, s)..])
    else Err(UnexpectedCharacter(s[0]))
  }

  /** The kind of the one-character token an operator or parenthesis makes. */
  function SymbolKind(c: char): Kind {
    if IsOpChar(c) then OPERATOR else if c == '(' then LPAREN else RPAREN
  }

  /** At a digit, the greedy digit run up to `j` becomes one NUMBER token. */
  lemma LexNumberAt(code: string, i: nat, j: nat)
    requires i < |code| && IsDigit(code[i]) && j - i == RunLength(IsDigit, code[i..])
    ensures i < j <= |code|
    ensures Lex(code[i..]) == PrependAll([Token(NUMBER, code[i..j])], Lex(code[j..]))
  {
    var s, n := code[i..], j - i;
    assert s[0] == code[i];
    assert Lex(s) == PrependAll([Token(NUMBER, s[..n])], Lex(s[n..]));
    assert s[..n] == code[i..j] && s[n..] == code[j..];
  }

  /** At an operator or a parenthesis, the one character becomes a token. */
  lemma LexSymbolAt(code: string, i: nat)
    requires i < |code| && (IsOpChar(code[i]) || code[i] == '(' || code[i] == ')')
    ensures Lex(code[i..]) == PrependAll([Token(SymbolKind(code[i]), code[i..i + 1])], Lex(code[i + 1..]))
  {
    var s := code[i..];
    assert s[0] == code[i] && !IsDigit(code[i]);
    assert s[..1] == code[i..i + 1] && s[1..] == code[i + 1..];
  }

  /** A whitespace run up to `j` produces nothing. */
  lemma LexSpaceAt(code: string, i: nat, j: nat)
    requires i < |code| && IsSpace(code[i]) && j - i == RunLength(IsSpace, code[i..])
    ensures i < j <= |code|
    ensures Lex(code[i..]) == Lex(code[j..])
  {
    var s := code[i..];
    assert s[0] == code[i];
    assert s[j - i..] == code[j..];
  }

  /** `lexer(expression)`: one token per NUMBER, OPERATOR or parenthesis match, none for SKIP. */
  method Tokenize(expression: string) returns (r: Result<seq<Token>, SyntaxError>)
    ensures r == Lex(expression)
  {
    var tokens: seq<Token> := [];
    var i := 0;
    assert expression[i..] == expression;
    while i < |expression|
      invariant 0 <= i <= |expression|
      invariant Lex(expression) == PrependAll(tokens, Lex(expression[i..]))
    {
      var c := expression[i];
      if IsDigit(c) {
        var j := ScanRun(IsDigit, expression, i);
        LexNumberAt(expression, i, j);
        PrependAllTwice(tokens, [Token(NUMBER, expression[i..j])], Lex(expression[j..]));
        tokens := tokens + [Token(NUMBER, expression[i..j])];
        i := j;
      } else if IsOpChar(c) || c == '(' || c == ')' {
        var kind := SymbolKind(c);
        LexSymbolAt(expression, i);
        PrependAllTwice(tokens, [Token(kind, expression[i..i + 1])], Lex(expression[i + 1..]));
        tokens := tokens + [Token(kind, expression[i..i + 1])];
        i := i + 1;
      } else if IsSpace(c) {
        var j := ScanRun(IsSpace, expression, i);
        LexSpaceAt(expression, i, j);
        i := j;
      } else {
        assert expression[i..][0] == c;
        return Err(UnexpectedCharacter(c));
      }
    }
    assert expression[i..] == [] && tokens + [] == tokens;
    r := Ok(tokens);
  }

  // ---------------------------------------------------------------------
  // Shunting-Yard conversion
  // ---------------------------------------------------------------------

  /**
   * What the conversion looks up without a KeyError: every OPERATOR token is
   * a key of the tables. The lexer produces nothing else.
   */
  predicate OperatorsKnown(ts: seq<Token>) {
    forall i :: 0 <= i < |ts| ==> ts[i].kind == OPERATOR ==> IsOperator(ts[i].value)
  }

  /** The operator stack holds known operators and left parentheses only. */
  predicate StackOk(stack: seq<Token>) {
    forall i :: 0 <= i < |stack| ==>
      (stack[i].kind == OPERATOR && IsOperator(stack[i].value)) || stack[i].kind == LPAREN
  }

  datatype State = State(output: seq<string>, stack: seq<Token>)

  function Top(stack: seq<Token>): Token
    requires |stack| > 0
  {
    stack[|stack| - 1]
  }

  function Pop(stack: seq<Token>): seq<Token>
    requires |stack| > 0
  {
    stack[..|stack| - 1]
  }

  /** The inner loop for an incoming operator: pop stacked operators that bind at least as tightly. */
  function PopOperators(op: string, st: State): (r: State)
    requires IsOperator(op) && StackOk(st.stack)
    ensures StackOk(r.stack)
    decreases |st.stack|
  {
    if |st.stack| > 0 && Top(st.stack).kind == OPERATOR && PopsBefore(op, Top(st.stack).value) then
      PopOperators(op, State(st.output + [Top(st.stack).value], Pop(st.stack)))
    else st
  }

  /** The inner loop for `)`: pop everything above the nearest `(`. */
  function PopToLParen(st: State): (r: State)
    requires StackOk(st.stack)
    ensures StackOk(r.stack)
    decreases |st.stack|
  {
    if |st.stack| > 0 && Top(st.stack).kind != LPAREN then
      PopToLParen(State(st.output + [Top(st.stack).value], Pop(st.stack)))
    else st
  }

  /** One iteration of the `for` loop. */
  function Step(st: State, t: Token): (r: Result<State, SyntaxError>)
    requires StackOk(st.stack) && (t.kind == OPERATOR ==> IsOperator(t.value))
    ensures r.Ok? ==> StackOk(r.value.stack)
  {
    match t.kind
    case NUMBER => Ok(State(st.output + [t.value], st.stack))
    case OPERATOR =>
      var p := PopOperators(t.value, st);
      Ok(State(p.output, p.stack + [t]))
    case LPAREN => Ok(State(st.output, st.stack + [t]))
    case RPAREN =>
      var p := PopToLParen(st);
      if |p.stack| == 0 || Top(p.stack).kind != LPAREN then Err(MismatchedParentheses)
      else Ok(State(p.output, Pop(p.stack)))
  }

  /** The final `while stack` loop: an open parenthesis left over is an error. */
  function Flush(st: State): Result<seq<string>, SyntaxError>
    decreases |st.stack|
  {
    if |st.stack| == 0 then Ok(st.output)
    else if Top(st.stack).kind == LPAREN then Err(MismatchedParentheses)
    else Flush(State(st.output + [Top(st.stack).value], Pop(st.stack)))
  }

  /** The rest of the conversion from state `st`, with `ts` still to read. */
  function Run(ts: seq<Token>, st: State): Result<seq<string>, SyntaxError>
    requires OperatorsKnown(ts) && StackOk(st.stack)
    decreases |ts|
  {
    if ts == [] then Flush(st)
    else
      match Step(st, ts[0])
      case Err(e) => Err(e)
      case Ok(st') => Run(ts[1..], st')
  }

  /** The output list of `infix_to_postfix(tokens)`, before it is joined. */
  function Postfix(ts: seq<Token>): Result<seq<string>, SyntaxError>
    requires OperatorsKnown(ts)
  {
    Run(ts, State([], []))
  }

  /** `infix_to_postfix(tokens)`: the output entries joined by single spaces. */
  function ToPostfix(ts: seq<Token>): Result<string, SyntaxError>
    requires OperatorsKnown(ts)
  {
    match Postfix(ts)
    case Ok(out) => Ok(Join(out, " "))
    case Err(e) => Err(e)
  }

  lemma RunFirst(ts: seq<Token>, i: nat, st: State)
    requires OperatorsKnown(ts) && StackOk(st.stack) && i < |ts|
    ensures OperatorsKnown(ts[i..]) && OperatorsKnown(ts[i + 1..])
    ensures Run(ts[i..], st) ==
      match Step(st, ts[i])
      case Err(e) => Err(e)
      case Ok(st') => Run(ts[i + 1..], st')
  {
    assert ts[i..][0] == ts[i];
    assert ts[i..][1..] == ts[i + 1..];
  }

  /** `infix_to_postfix(tokens)`, loop for loop. */
  method InfixToPostfix(tokens: seq<Token>) returns (r: Result<string, SyntaxError>)
    requires OperatorsKnown(tokens)
    ensures r == ToPostfix(tokens)
  {
    var output: seq<string> := [];
    var stack: seq<Token> := [];
    assert tokens[0..] == tokens;
    for i := 0 to |tokens|
      invariant StackOk(stack)
      invariant OperatorsKnown(tokens[i..])
      invariant Postfix(tokens) == Run(tokens[i..], State(output, stack))
    {
      var t := tokens[i];
      RunFirst(tokens, i, State(output, stack));
      if t.kind == NUMBER {
        output := output + [t.value];
      } else if t.kind == OPERATOR {
        ghost var before := State(output, stack);
        while |stack| > 0 && stack[|stack| - 1].kind == OPERATOR
          invariant StackOk(stack)
          invariant PopOperators(t.value, State(output, stack)) == PopOperators(t.value, before)
          decreases |stack|
        {
          var top := stack[|stack| - 1].value;
          if PopsBefore(t.value, top) {
            output := output + [top];
            stack := stack[..|stack| - 1];
          } else {
            break;
          }
        }
        stack := stack + [t];
      } else if t.kind == LPAREN {
        stack := stack + [t];
      } else {
        ghost var before := State(output, stack);
        while |stack| > 0 && stack[|stack| - 1].kind != LPAREN
          invariant StackOk(stack)
          invariant PopToLParen(State(output, stack)) == PopToLParen(before)
          decreases |stack|
        {
          output := output + [stack[|stack| - 1].value];
          stack := stack[..|stack| - 1];
        }
        if |stack| == 0 || stack[|stack| - 1].kind != LPAREN {
          return Err(MismatchedParentheses);
        }
        stack := stack[..|stack| - 1];
      }
    }
    while |stack| > 0
      invariant Postfix(tokens) == Flush(State(output, stack))
      decreases |stack|
    {
      if stack[|stack| - 1].kind == LPAREN {
        return Err(MismatchedParentheses);
      }
      output := output + [stack[|stack| - 1].value];
      stack := stack[..|stack| - 1];
    }
    r := Ok(Join(output, " "));
  }

  // ---------------------------------------------------------------------
  // compile_expression
  // ---------------------------------------------------------------------

  function Message(e: SyntaxError): string {
    match e
    case UnexpectedCharacter(c) => "Unexpected character " + [c]
    case MismatchedParentheses => "Mismatched parentheses"
  }

  /** `compile_expression(expression)`: the postfix string, or the error text of either stage. */
  function Compile(expression: string): string {
    match Lex(expression)
    case Err(e) => "Syntax Error: " + Message(e)
    case Ok(ts) =>
      LexWellFormed(expression);
      match ToPostfix(ts)
      case Ok(p) => p
      case Err(e) => "Syntax Error: " + Message(e)
  }

  method CompileExpression(expression: string) returns (r: string)
    ensures r == Compile(expression)
  {
    var tokens := Tokenize(expression);
    if tokens.Err? {
      return "Syntax Error: " + Message(tokens.error);
    }
    LexWellFormed(expression);
    var postfix := InfixToPostfix(tokens.value);
    if postfix.Err? {
      return "Syntax Error: " + Message(postfix.error);
    }
    r := postfix.value;
  }

  // ---------------------------------------------------------------------
  // Properties of the lexer
  // ---------------------------------------------------------------------

  /** Every token's value is accepted by its kind's pattern; in particular every operator is a key of the tables. */
  lemma {:induction false} LexWellFormed(s: string)
    ensures Lex(s).Ok? ==> AllWellFormed(Lex(s).value) && OperatorsKnown(Lex(s).value)
    decreases |s|
  {
    if s == [] {
    } else if IsDigit(s[0]) {
      LexWellFormed(s[RunLength(IsDigit, s)..]);
    } else if IsOpChar(s[0]) || s[0] == '(' || s[0] == ')' {
      LexWellFormed(s[1..]);
    } else if IsSpace(s[0]) {
      LexWellFormed(s[RunLength(IsSpace, s)..]);
    }
  }

  /** The length of the one match at the head of `s`. */
  function Advance(s: string): (n: nat)
    requires s != [] && IsLegal(s[0])
    ensures 0 < n <= |s|
    ensures forall j :: 0 <= j < n ==> IsLegal(s[j])
  {
    if IsDigit(s[0]) then RunLength(IsDigit, s)
    else if IsSpace(s[0]) then RunLength(IsSpace, s)
    else 1
  }

  /** After one match the scan goes on with the rest, keeping its success or error. */
  lemma LexAdvance(s: string)
    requires s != [] && IsLegal(s[0])
    ensures Lex(s).Err? <==> Lex(s[Advance(s)..]).Err?
    ensures Lex(s).Err? ==> Lex(s).error == Lex(s[Advance(s)..]).error
  {
  }

  /** An input that lexes without error holds legal characters only. */
  lemma {:induction false} LexOkLegal(s: string)
    ensures Lex(s).Ok? ==> forall k :: 0 <= k < |s| ==> IsLegal(s[k])
    decreases |s|
  {
    if s != [] && IsLegal(s[0]) && Lex(s).Ok? {
      var n := Advance(s);
      var t := s[n..];
      LexAdvance(s);
      LexOkLegal(t);
      forall k | n <= k < |s| ensures IsLegal(s[k]) {
        assert s[k] == t[k - n];
      }
    }
  }

  /** A failure names the first illegal character. */
  lemma {:induction false} LexFirstIllegal(s: string)
    ensures Lex(s).Err? ==>
      exists k :: 0 <= k < |s| && !IsLegal(s[k]) && Lex(s).error == UnexpectedCharacter(s[k]) &&
        forall j :: 0 <= j < k ==> IsLegal(s[j])
    decreases |s|
  {
    if s != [] && IsLegal(s[0]) && Lex(s).Err? {
      var n := Advance(s);
      var t := s[n..];
      LexAdvance(s);
      LexFirstIllegal(t);
      var k' :| 0 <= k' < |t| && !IsLegal(t[k']) && Lex(t).error == UnexpectedCharacter(t[k']) &&
        forall j :: 0 <= j < k' ==> IsLegal(t[j]);
      assert s[n + k'] == t[k'];
      forall j | n <= j < n + k' ensures IsLegal(s[j]) {
        assert s[j] == t[j - n];
      }
    }
  }

  /**
   * The lexer fails exactly when the input holds a character other than a
   * digit, an operator, a parenthesis or whitespace, and the error names the
   * first such character.
   */
  lemma LexFailsIff(s: string)
    ensures Lex(s).Err? <==> exists k :: 0 <= k < |s| && !IsLegal(s[k])
    ensures Lex(s).Err? ==>
      exists k :: 0 <= k < |s| && !IsLegal(s[k]) && Lex(s).error == UnexpectedCharacter(s[k]) &&
        forall j :: 0 <= j < k ==> IsLegal(s[j])
  {
    LexFirstIllegal(s);
    LexOkLegal(s);
  }

  /** A letter or `=` anywhere makes the lexer fail. */
  lemma LettersAreRejected(s: string, k: nat)
    requires k < |s| && (IsLetter(s[k]) || s[k] == '=')
    ensures Lex(s).Err?
  {
    LexFailsIff(s);
  }

  /** The values of the tokens, written one after the other. */
  function Spelling(ts: seq<Token>): string {
    if ts == [] then "" else ts[0].value + Spelling(ts[1..])
  }

  predicate NotSpace(c: char) { !IsSpace(c) }

  /** Whitespace runs are skipped and nothing else is lost, in source order. */
  lemma {:induction false} LexSpelling(s: string)
    requires Lex(s).Ok?
    ensures Spelling(Lex(s).value) == Keep(NotSpace, s)
    decreases |s|
  {
    if s == [] {
    } else if IsDigit(s[0]) {
      var n := RunLength(IsDigit, s);
      KeepPrefix(NotSpace, s, n, true);
      LexSpelling(s[n..]);
    } else if IsOpChar(s[0]) || s[0] == '(' || s[0] == ')' {
      KeepPrefix(NotSpace, s, 1, true);
      LexSpelling(s[1..]);
    } else if IsSpace(s[0]) {
      var n := RunLength(IsSpace, s);
      KeepPrefix(NotSpace, s, n, false);
      LexSpelling(s[n..]);
    }
  }
}
