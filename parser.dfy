/**
 * compiler/parser.py: the Shunting-Yard conversion over the `(kind, value)`
 * tokens of lexer.py. NUMBER and ID values go straight to the output, and
 * so does `=` for ASSIGN; the operator stack holds plain values, and at the
 * end everything left on it, a `(` included, is moved to the output.
 */
module Parser {
  import opened Results
  import opened Text
  import opened Operators
  import opened Lexer

  /**
   * The two exceptions the conversion can raise: a KeyError when an OP value
   * is not a key of the tables (only reached with an operator on the stack),
   * and the SyntaxError for a `)` without a `(`.
   */
  datatype ParseError = KeyError(key: string) | UnmatchedParenthesis

  /** Output list and operator stack, top at the end. */
  datatype State = State(output: seq<string>, stack: seq<string>)

  /** The inner loop for an OP token: pop stacked operators that bind at least as tightly. */
  function PopOperators(val: string, st: State): Result<State, ParseError>
    decreases |st.stack|
  {
    if |st.stack| > 0 && IsOperator(st.stack[|st.stack| - 1]) then
      if !IsOperator(val) then Err(KeyError(val))
      else if PopsBefore(val, st.stack[|st.stack| - 1]) then
        PopOperators(val, State(st.output + [st.stack[|st.stack| - 1]], st.stack[..|st.stack| - 1]))
      else Ok(st)
    else Ok(st)
  }

  /** The inner loop for `)`: pop everything above the nearest `(`. */
  function PopToOpen(st: State): State
    decreases |st.stack|
  {
    if |st.stack| > 0 && st.stack[|st.stack| - 1] != "(" then
      PopToOpen(State(st.output + [st.stack[|st.stack| - 1]], st.stack[..|st.stack| - 1]))
    else st
  }

  /** One iteration of the `for` loop. */
  function Step(st: State, t: Token): Result<State, ParseError> {
    match t.kind
    case NUMBER => Ok(State(st.output + [t.value], st.stack))
    case ID => Ok(State(st.output + [t.value], st.stack))
    case OP =>
      (match PopOperators(t.value, st)
       case Err(e) => Err(e)
       case Ok(p) => Ok(State(p.output, p.stack + [t.value])))
    case LPAREN => Ok(State(st.output, st.stack + [t.value]))
    case RPAREN =>
      var p := PopToOpen(st);
      if |p.stack| == 0 then Err(UnmatchedParenthesis)
      else Ok(State(p.output, p.stack[..|p.stack| - 1]))
    case ASSIGN => Ok(State(st.output + ["="], st.stack))
  }

  /** The final loop: the stack is emptied onto the output, top first. */
  function Flush(st: State): seq<string>
    decreases |st.stack|
  {
    if |st.stack| == 0 then st.output
    else Flush(State(st.output + [st.stack[|st.stack| - 1]], st.stack[..|st.stack| - 1]))
  }

  function Run(ts: seq<Token>, st: State): Result<seq<string>, ParseError>
    decreases |ts|
  {
    if ts == [] then Ok(Flush(st))
    else
      match Step(st, ts[0])
      case Err(e) => Err(e)
      case Ok(st') => Run(ts[1..], st')
  }

  /** The list `infix_to_postfix(tokens)` returns. */
  function Parse(ts: seq<Token>): Result<seq<string>, ParseError> {
    Run(ts, State([], []))
  }

  lemma RunFirst(ts: seq<Token>, i: nat, st: State)
    requires i < |ts|
    ensures Run(ts[i..], st) ==
      match Step(st, ts[i])
      case Err(e) => Err(e)
      case Ok(st') => Run(ts[i + 1..], st')
  {
    assert ts[i..][0] == ts[i];
    assert ts[i..][1..] == ts[i + 1..];
  }

  /** `infix_to_postfix(tokens)`, loop for loop. */
  method InfixToPostfix(tokens: seq<Token>) returns (r: Result<seq<string>, ParseError>)
    ensures r == Parse(tokens)
  {
    var output: seq<string> := [];
    var stack: seq<string> := [];
    assert tokens[0..] == tokens;
    for i := 0 to |tokens|
      invariant Parse(tokens) == Run(tokens[i..], State(output, stack))
    {
      var kind := tokens[i].kind;
      var val := tokens[i].value;
      RunFirst(tokens, i, State(output, stack));
      if kind == NUMBER || kind == ID {
        output := output + [val];
      } else if kind == OP {
        ghost var before := State(output, stack);
        while |stack| > 0 && IsOperator(stack[|stack| - 1])
          invariant PopOperators(val, State(output, stack)) == PopOperators(val, before)
          decreases |stack|
        {
          if !IsOperator(val) {
            return Err(KeyError(val));
          }
          if !PopsBefore(val, stack[|stack| - 1]) {
            break;
          }
          output := output + [stack[|stack| - 1]];
          stack := stack[..|stack| - 1];
        }
        assert PopOperators(val, before) == Ok(State(output, stack));
        stack := stack + [val];
      } else if kind == LPAREN {
        stack := stack + [val];
      } else if kind == RPAREN {
        ghost var before := State(output, stack);
        while |stack| > 0 && stack[|stack| - 1] != "("
          invariant PopToOpen(State(output, stack)) == PopToOpen(before)
          decreases |stack|
        {
          output := output + [stack[|stack| - 1]];
          stack := stack[..|stack| - 1];
        }
        assert PopToOpen(before) == State(output, stack);
        if |stack| == 0 {
          return Err(UnmatchedParenthesis);
        }
        stack := stack[..|stack| - 1];
      } else {
        output := output + ["="];
      }
    }
    while |stack| > 0
      invariant Parse(tokens) == Ok(Flush(State(output, stack)))
      decreases |stack|
    {
      output := output + [stack[|stack| - 1]];
      stack := stack[..|stack| - 1];
    }
    r := Ok(output);
  }
}
