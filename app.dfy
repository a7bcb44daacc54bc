/**
 * The pipeline of compiler/app.py: lexer.py's tokens reduced to their
 * values, a legality check, its own Shunting-Yard conversion (with `=` in
 * the precedence table and every operator left-associative), a generator
 * that pushes every operand, and the syntax tree of the Ast module.
 */
module App {
  import opened Results
  import opened Text
  import opened Lexer
  import opened Ast

  // ---------------------------------------------------------------------
  // extract_token_values
  // ---------------------------------------------------------------------

  /** `extract_token_values(lexer_output)`: the second field of every pair. */
  function TokenValues(ts: seq<Token>): (r: seq<string>)
    ensures |r| == |ts|
    ensures forall i :: 0 <= i < |ts| ==> r[i] == ts[i].value
  {
    seq(|ts|, i requires 0 <= i < |ts| => ts[i].value)
  }

  // ---------------------------------------------------------------------
  // check_semantics
  // ---------------------------------------------------------------------

  /** `valid_operators`. */
  predicate IsValidOperator(t: string) {
    t == "+" || t == "-" || t == "*" || t == "/" || t == "(" || t == ")" || t == "="
  }

  predicate IsValidToken(t: string) { IsDigits(t) || IsValidOperator(t) || IsIdentifier(t) }

  /** The exceptions that reach the `except` clause of `compile_code`. */
  datatype CompileError =
    | LexFailed(lexError: LexError)
    | InvalidToken(token: string)
    | ConversionFailed(conversionError: IndexError)
    | BuildFailed(buildError: IndexError)

  /** The outcome of the check from position `i` on. */
  function ValidateFrom(ts: seq<string>, i: nat): Result<(), CompileError>
    requires i <= |ts|
    decreases |ts| - i
  {
    if i == |ts| then Ok(())
    else if !IsValidToken(ts[i]) then Err(InvalidToken(ts[i]))
    else ValidateFrom(ts, i + 1)
  }

  /** `check_semantics(tokens)`: the ValueError for the first invalid token, if any. */
  function Validate(ts: seq<string>): Result<(), CompileError> {
    ValidateFrom(ts, 0)
  }

  /** `check_semantics(tokens)`, loop for loop. */
  method CheckSemantics(tokens: seq<string>) returns (r: Result<(), CompileError>)
    ensures r == Validate(tokens)
  {
    for i := 0 to |tokens|
      invariant Validate(tokens) == ValidateFrom(tokens, i)
    {
      var token := tokens[i];
      if !(IsDigits(token) || IsValidOperator(token) || IsIdentifier(token)) {
        return Err(InvalidToken(token));
      }
    }
    return Ok(());
  }

  // ---------------------------------------------------------------------
  // infix_to_postfix
  // ---------------------------------------------------------------------

  /** The keys of `precedence`. */
  predicate InTable(t: string) { t == "=" || t == "+" || t == "-" || t == "*" || t == "/" }

  /** `precedence.get(t, -1)`. */
  function Rank(t: string): (r: int)
    ensures InTable(t) <==> r >= 0
  {
    if t == "=" then 0
    else if t == "+" || t == "-" then 1
    else if t == "*" || t == "/" then 2
    else -1
  }

  /** Output list and operator stack, top at the end. */
  datatype State = State(output: seq<string>, stack: seq<string>)

  /** The inner loop for a key of the table: pop what is stacked above `(` with at least its precedence. */
  function PopLower(t: string, st: State): State
    decreases |st.stack|
  {
    if |st.stack| > 0 && st.stack[|st.stack| - 1] != "(" && Rank(t) <= Rank(st.stack[|st.stack| - 1]) then
      PopLower(t, State(st.output + [st.stack[|st.stack| - 1]], st.stack[..|st.stack| - 1]))
    else st
  }

  /** The inner loop for `)`: pop everything above the nearest `(`. */
  function PopToOpen(st: State): State
    decreases |st.stack|
  {
    if |st.stack| > 0 && st.stack[|st.stack| - 1] != "(" then
      PopToOpen(State(st.output + [st.stack[|st.stack| - 1]], st.stack[..|st.stack| - 1]))
    else st
  }

  /** One iteration of the `for` loop; a token no branch matches changes nothing. */
  function Step(st: State, t: string): Result<State, IndexError> {
    if IsOperand(t) then Ok(State(st.output + [t], st.stack))
    else if InTable(t) then
      var p := PopLower(t, st);
      Ok(State(p.output, p.stack + [t]))
    else if t == "(" then Ok(State(st.output, st.stack + [t]))
    else if t == ")" then
      var p := PopToOpen(st);
      if |p.stack| == 0 then Err(PopFromEmptyList)
      else Ok(State(p.output, p.stack[..|p.stack| - 1]))
    else Ok(st)
  }

  /** The final loop: the stack is emptied onto the output, top first. */
  function Flush(st: State): seq<string>
    decreases |st.stack|
  {
    if |st.stack| == 0 then st.output
    else Flush(State(st.output + [st.stack[|st.stack| - 1]], st.stack[..|st.stack| - 1]))
  }

  function Run(ts: seq<string>, st: State): Result<seq<string>, IndexError>
    decreases |ts|
  {
    if ts == [] then Ok(Flush(st))
    else
      match Step(st, ts[0])
      case Err(e) => Err(e)
      case Ok(st') => Run(ts[1..], st')
  }

  /** The list `infix_to_postfix(tokens)` returns. */
  function Convert(ts: seq<string>): Result<seq<string>, IndexError> {
    Run(ts, State([], []))
  }

  lemma RunFirst(ts: seq<string>, i: nat, st: State)
    requires i < |ts|
    ensures Run(ts[i..], st) ==
      match Step(st, ts[i])
      case Err(e) => Err(e)
      case Ok(st') => Run(ts[i + 1..], st')
  {
    assert ts[i..][0] == ts[i];
    assert ts[i..][1..] == ts[i + 1..];
  }

  /** `infix_to_postfix(tokens)`, loop for loop. */
  method InfixToPostfix(tokens: seq<string>) returns (r: Result<seq<string>, IndexError>)
    ensures r == Convert(tokens)
  {
    var output: seq<string> := [];
    var stack: seq<string> := [];
    assert tokens[0..] == tokens;
    for i := 0 to |tokens|
      invariant Convert(tokens) == Run(tokens[i..], State(output, stack))
    {
      var token := tokens[i];
      RunFirst(tokens, i, State(output, stack));
      if IsDigits(token) || IsIdentifier(token) {
        output := output + [token];
      } else if InTable(token) {
        ghost var before := State(output, stack);
        while |stack| > 0 && stack[|stack| - 1] != "(" && Rank(token) <= Rank(stack[|stack| - 1])
          invariant PopLower(token, State(output, stack)) == PopLower(token, before)
          decreases |stack|
        {
          output := output + [stack[|stack| - 1]];
          stack := stack[..|stack| - 1];
        }
        stack := stack + [token];
      } else if token == "(" {
        stack := stack + [token];
      } else if token == ")" {
        ghost var before := State(output, stack);
        while |stack| > 0 && stack[|stack| - 1] != "("
          invariant PopToOpen(State(output, stack)) == PopToOpen(before)
          decreases |stack|
        {
          output := output + [stack[|stack| - 1]];
          stack := stack[..|stack| - 1];
        }
        if |stack| == 0 {
          return Err(PopFromEmptyList);
        }
        stack := stack[..|stack| - 1];
      }
    }
    while |stack| > 0
      invariant Convert(tokens) == Ok(Flush(State(output, stack)))
      decreases |stack|
    {
      output := output + [stack[|stack| - 1]];
      stack := stack[..|stack| - 1];
    }
    r := Ok(output);
  }

  // ---------------------------------------------------------------------
  // generate_code
  // ---------------------------------------------------------------------

  /** `str.upper()` on ASCII letters. */
  function UpperChar(c: char): char {
    if 'a' <= c <= 'z' then (c as int - 32) as char else c
  }

  function Upper(s: string): (r: string)
    ensures |r| == |s|
  {
    seq(|s|, i requires 0 <= i < |s| => UpperChar(s[i]))
  }

  /** The instruction of one postfix entry: `PUSH` for any operand, the upper-cased entry otherwise. */
  function Code(t: string): string {
    if IsOperand(t) then "PUSH " + t else Upper(t)
  }

  /** The list `generate_code(postfix_tokens)` returns. */
  function Instructions(p: seq<string>): seq<string>
    decreases |p|
  {
    if |p| == 0 then [] else Instructions(p[..|p| - 1]) + [Code(p[|p| - 1])]
  }

  /** `generate_code(postfix_tokens)`, loop for loop. */
  method GenerateCode(postfix: seq<string>) returns (instructions: seq<string>)
    ensures instructions == Instructions(postfix)
  {
    instructions := [];
    for i := 0 to |postfix|
      invariant instructions == Instructions(postfix[..i])
    {
      var token := postfix[i];
      assert postfix[..i + 1][..i] == postfix[..i];
      if IsDigits(token) || IsIdentifier(token) {
        instructions := instructions + ["PUSH " + token];
      } else {
        instructions := instructions + [Upper(token)];
      }
    }
    assert postfix[..|postfix|] == postfix;
  }

  // ---------------------------------------------------------------------
  // compile_code
  // ---------------------------------------------------------------------

  /** The four results of a successful `compile_code(expr)`. */
  datatype Compiled = Compiled(tokens: seq<string>, postfix: seq<string>, instructions: seq<string>, ast: Node)

  /** `compile_code(expr)`: every stage in turn, or the first exception raised. */
  function Compile(expr: string): Result<Compiled, CompileError> {
    match Lex(expr)
    case Err(e) => Err(LexFailed(e))
    case Ok(raw) =>
      var values := TokenValues(raw);
      match Validate(values)
      case Err(e) => Err(e)
      case Ok(_) =>
        match Convert(values)
        case Err(e) => Err(ConversionFailed(e))
        case Ok(postfix) =>
          match Build(postfix)
          case Err(e) => Err(BuildFailed(e))
          case Ok(ast) => Ok(Compiled(values, postfix, Instructions(postfix), ast))
  }

  /** `compile_code(expr)`, calling each stage's own implementation. */
  method CompileCode(expr: string) returns (r: Result<Compiled, CompileError>)
    ensures r == Compile(expr)
  {
    var raw := Tokenize(expr);
    if raw.Err? {
      return Err(LexFailed(raw.error));
    }
    var values := TokenValues(raw.value);
    var checked := CheckSemantics(values);
    if checked.Err? {
      return Err(checked.error);
    }
    var postfix := InfixToPostfix(values);
    if postfix.Err? {
      return Err(ConversionFailed(postfix.error));
    }
    var instructions := GenerateCode(postfix.value);
    var ast := BuildAst(postfix.value);
    if ast.Err? {
      return Err(BuildFailed(ast.error));
    }
    return Ok(Compiled(values, postfix.value, instructions, ast.value));
  }
}
