/**
 * Compiler/infix_to_postfix.py: a second copy of the lexer, Shunting-Yard
 * conversion and `compile_expression` wrapper of compiler/infix_to_postfix.py,
 * with the same patterns, tables and messages. Its functions are modelled
 * here as methods of their own, proved equal to the specification functions
 * of `InfixToPostfix`, so every fact proved there holds for this copy too.
 */
module InfixToPostfixCopy {
  import opened Results
  import opened Text
  import opened Operators
  import opened Shared = InfixToPostfix

  /** `lexer(expression)`: the MISMATCH branch raises; a whitespace match appends nothing. */
  method Tokenize(expression: string) returns (r: Result<seq<Token>, SyntaxError>)
    ensures r == Lex(expression)
  {
    var tokens: seq<Token> := [];
    var i := 0;
    assert expression[i..] == expression;
    while i < |expression|
      invariant 0 <= i <= |expression|
      invariant Lex(expression) == PrependAll(tokens, Lex(expression[i..]))
    {
      var c := expression[i];
      var j := i + 1;
      if IsDigit(c) {
        j := ScanRun(IsDigit, expression, i);
        LexNumberAt(expression, i, j);
      } else if IsSpace(c) {
        j := ScanRun(IsSpace, expression, i);
        LexSpaceAt(expression, i, j);
      } else if IsOpChar(c) || c == '(' || c == ')' {
        LexSymbolAt(expression, i);
      } else {
        assert expression[i..][0] == c;
        return Err(UnexpectedCharacter(c));
      }
      var value := expression[i..j];
      if IsDigit(c) {
        PrependAllTwice(tokens, [Token(NUMBER, value)], Lex(expression[j..]));
        tokens := tokens + [Token(NUMBER, value)];
      } else if IsOpChar(c) {
        PrependAllTwice(tokens, [Token(OPERATOR, value)], Lex(expression[j..]));
        tokens := tokens + [Token(OPERATOR, value)];
      } else if c == '(' {
        PrependAllTwice(tokens, [Token(LPAREN, value)], Lex(expression[j..]));
        tokens := tokens + [Token(LPAREN, value)];
      } else if c == ')' {
        PrependAllTwice(tokens, [Token(RPAREN, value)], Lex(expression[j..]));
        tokens := tokens + [Token(RPAREN, value)];
      }
      i := j;
    }
    assert expression[i..] == [] && tokens + [] == tokens;
    r := Ok(tokens);
  }

  /** `infix_to_postfix(tokens)`: the stack holds (type, value) pairs, as in the other copy. */
  method InfixToPostfix(tokens: seq<Token>) returns (r: Result<string, SyntaxError>)
    requires OperatorsKnown(tokens)
    ensures r == ToPostfix(tokens)
  {
    var output: seq<string> := [];
    var stack: seq<Token> := [];
    var i := 0;
    assert tokens[0..] == tokens;
    while i < |tokens|
      invariant 0 <= i <= |tokens|
      invariant StackOk(stack)
      invariant Postfix(tokens) == Run(tokens[i..], State(output, stack))
    {
      var t := tokens[i];
      RunFirst(tokens, i, State(output, stack));
      match t.kind {
        case NUMBER =>
          output := output + [t.value];
        case OPERATOR =>
          ghost var before := State(output, stack);
          while |stack| > 0 && stack[|stack| - 1].kind == OPERATOR
            invariant StackOk(stack)
            invariant PopOperators(t.value, State(output, stack)) == PopOperators(t.value, before)
            decreases |stack|
          {
            var top := stack[|stack| - 1].value;
            if !PopsBefore(t.value, top) {
              break;
            }
            output := output + [top];
            stack := stack[..|stack| - 1];
          }
          stack := stack + [t];
        case LPAREN =>
          stack := stack + [t];
        case RPAREN =>
          ghost var before := State(output, stack);
          while |stack| > 0 && stack[|stack| - 1].kind != LPAREN
            invariant StackOk(stack)
            invariant PopToLParen(State(output, stack)) == PopToLParen(before)
            decreases |stack|
          {
            output := output + [stack[|stack| - 1].value];
            stack := stack[..|stack| - 1];
          }
          if |stack| == 0 || stack[|stack| - 1].kind != LPAREN {
            return Err(MismatchedParentheses);
          }
          stack := stack[..|stack| - 1];
      }
      i := i + 1;
    }
    while |stack| > 0
      invariant Postfix(tokens) == Flush(State(output, stack))
      decreases |stack|
    {
      if stack[|stack| - 1].kind == LPAREN {
        return Err(MismatchedParentheses);
      }
      output := output + [stack[|stack| - 1].value];
      stack := stack[..|stack| - 1];
    }
    r := Ok(Join(output, " "));
  }

  /** `compile_expression(expression)`, built from this copy's lexer and conversion. */
  method CompileExpression(expression: string) returns (r: string)
    ensures r == Compile(expression)
  {
    var tokens := Tokenize(expression);
    if tokens.Err? {
      return "Syntax Error: " + Message(tokens.error);
    }
    LexWellFormed(expression);
    var postfix := InfixToPostfix(tokens.value);
    if postfix.Err? {
      return "Syntax Error: " + Message(postfix.error);
    }
    r := postfix.value;
  }
}
