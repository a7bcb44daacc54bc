/**
 * What the conversion of compiler/parser.py guarantees. It fails only on a
 * `)` without a `(`; on lexed tokens whose parentheses are balanced it
 * produces exactly the output of the conversion in compiler/infix_to_postfix.py
 * (identifiers and `=` taking the place of numbers), so the facts proved
 * there carry over; and an assignment `x = e` emits `x` and `=` before the
 * postfix form of `e`.
 */
module ParserFacts {
  import opened Results
  import opened Text
  import opened Operators
  import opened Lexer
  import opened Parser
  import I = InfixToPostfix
  import F = InfixToPostfixFacts

  // ---------------------------------------------------------------------
  // When the conversion fails
  // ---------------------------------------------------------------------

  /** What lexed tokens can put on the stack: operators and `(`. */
  predicate Stacked(stack: seq<string>) {
    forall i :: 0 <= i < |stack| ==> IsOperator(stack[i]) || stack[i] == "("
  }

  /** The `(` entries of a stack. */
  function Opens(stack: seq<string>): nat
    decreases |stack|
  {
    if |stack| == 0 then 0
    else Opens(stack[..|stack| - 1]) + (if stack[|stack| - 1] == "(" then 1 else 0)
  }

  /**
   * Reference definition: reading from nesting depth `d`, no `)` closes more
   * than has been opened. Unlike `Balanced`, `(`s may be left open.
   */
  predicate Closes(ts: seq<Token>, d: nat)
    decreases |ts|
  {
    ts == [] ||
    match ts[0].kind
    case LPAREN => Closes(ts[1..], d + 1)
    case RPAREN => d > 0 && Closes(ts[1..], d - 1)
    case _ => Closes(ts[1..], d)
  }

  lemma {:induction false} PopOperatorsShape(val: string, st: State)
    requires IsOperator(val) && Stacked(st.stack)
    ensures PopOperators(val, st).Ok?
    ensures Stacked(PopOperators(val, st).value.stack)
    ensures Opens(PopOperators(val, st).value.stack) == Opens(st.stack)
    decreases |st.stack|
  {
    var n := |st.stack|;
    if n > 0 && IsOperator(st.stack[n - 1]) && PopsBefore(val, st.stack[n - 1]) {
      PopOperatorsShape(val, State(st.output + [st.stack[n - 1]], st.stack[..n - 1]));
    }
  }

  lemma {:induction false} PopToOpenShape(st: State)
    requires Stacked(st.stack)
    ensures var r := PopToOpen(st);
      Stacked(r.stack) && Opens(r.stack) == Opens(st.stack) &&
      (|r.stack| == 0 <==> Opens(st.stack) == 0) &&
      (|r.stack| > 0 ==> r.stack[|r.stack| - 1] == "(")
    decreases |st.stack|
  {
    var n := |st.stack|;
    if n > 0 && st.stack[n - 1] != "(" {
      PopToOpenShape(State(st.output + [st.stack[n - 1]], st.stack[..n - 1]));
    }
  }

  lemma PushShape(stack: seq<string>, v: string)
    ensures Opens(stack + [v]) == Opens(stack) + (if v == "(" then 1 else 0)
  {
    assert (stack + [v])[..|stack|] == stack;
  }

  lemma StepShape(st: State, t: Token)
    requires WellFormed(t) && Stacked(st.stack)
    ensures Step(st, t).Ok? <==> t.kind != RPAREN || Opens(st.stack) > 0
    ensures Step(st, t).Ok? ==> Stacked(Step(st, t).value.stack)
    ensures Step(st, t).Ok? ==>
      Opens(Step(st, t).value.stack) ==
        Opens(st.stack) + (if t.kind == LPAREN then 1 else if t.kind == RPAREN then -1 else 0)
  {
    match t.kind
    case OP => StepOperatorShape(st, t);
    case LPAREN => StackedPush(st.stack, t.value);
    case RPAREN => StepCloseShape(st, t);
    case _ =>
  }

  /** Pushing an operator or `(` keeps the stack's shape and counts one more `(` for a `(`. */
  lemma StackedPush(stack: seq<string>, v: string)
    requires Stacked(stack) && (IsOperator(v) || v == "(")
    ensures Stacked(stack + [v])
    ensures Opens(stack + [v]) == Opens(stack) + (if v == "(" then 1 else 0)
  {
    PushShape(stack, v);
    assert forall i :: 0 <= i < |stack| ==> (stack + [v])[i] == stack[i];
  }

  lemma StepOperatorShape(st: State, t: Token)
    requires t.kind == OP && WellFormed(t) && Stacked(st.stack)
    ensures Step(st, t).Ok? && Stacked(Step(st, t).value.stack)
    ensures Opens(Step(st, t).value.stack) == Opens(st.stack)
  {
    PopOperatorsShape(t.value, st);
    var p := PopOperators(t.value, st).value;
    StackedPush(p.stack, t.value);
    assert Step(st, t) == Ok(State(p.output, p.stack + [t.value]));
  }

  lemma StepCloseShape(st: State, t: Token)
    requires t.kind == RPAREN && Stacked(st.stack)
    ensures Step(st, t).Ok? <==> Opens(st.stack) > 0
    ensures Step(st, t).Ok? ==> Stacked(Step(st, t).value.stack) && Opens(Step(st, t).value.stack) == Opens(st.stack) - 1
  {
    var p := PopToOpen(st);
    PopToOpenShape(st);
    if |p.stack| > 0 {
      var rest := p.stack[..|p.stack| - 1];
      assert p.stack == rest + ["("];
      PushShape(rest, "(");
      assert Step(st, t) == Ok(State(p.output, rest));
    }
  }

  lemma {:induction false} RunShape(ts: seq<Token>, st: State)
    requires Lexer.AllWellFormed(ts) && Stacked(st.stack)
    ensures Run(ts, st).Ok? <==> Closes(ts, Opens(st.stack))
    ensures Run(ts, st).Err? ==> Run(ts, st).error == UnmatchedParenthesis
    decreases |ts|
  {
    if ts != [] {
      assert WellFormed(ts[0]);
      StepShape(st, ts[0]);
      if Step(st, ts[0]).Ok? {
        assert Lexer.AllWellFormed(ts[1..]) by {
          forall i | 0 <= i < |ts[1..]| ensures WellFormed(ts[1..][i]) {
            assert ts[1..][i] == ts[i + 1];
          }
        }
        RunShape(ts[1..], Step(st, ts[0]).value);
      } else {
        assert ts[0].kind == RPAREN;
      }
    }
  }

  /**
   * On lexed tokens the conversion fails exactly when some `)` has no `(`
   * before it, and never with a KeyError.
   */
  lemma ParseOkIff(ts: seq<Token>)
    requires Lexer.AllWellFormed(ts)
    ensures Parse(ts).Ok? <==> Closes(ts, 0)
    ensures Parse(ts).Err? ==> Parse(ts).error == UnmatchedParenthesis
  {
    RunShape(ts, State([], []));
  }

  /** The final loop moves the stack to the output top first, a `(` included. */
  lemma {:induction false} FlushReverses(st: State)
    ensures Flush(st) == st.output + Reversed(st.stack)
    decreases |st.stack|
  {
    var n := |st.stack|;
    if n > 0 {
      FlushReverses(State(st.output + [st.stack[n - 1]], st.stack[..n - 1]));
      assert st.output + [st.stack[n - 1]] + Reversed(st.stack[..n - 1]) ==
        st.output + ([st.stack[n - 1]] + Reversed(st.stack[..n - 1]));
    }
  }

  /** An unclosed `(` is not an error: it comes out at the end, after its operand. */
  lemma UnclosedParenthesisKept(a: string)
    ensures Parse([Token(LPAREN, "("), Token(NUMBER, a)]) == Ok([a, "("])
  {
    var ts := [Token(LPAREN, "("), Token(NUMBER, a)];
    var e: seq<string> := [];
    assert ts[0..] == ts && ts[2..] == [];
    assert Step(State([], []), ts[0]) == Ok(State([], ["("])) by { assert e + ["("] == ["("]; }
    RunFirst(ts, 0, State([], []));
    assert Step(State([], ["("]), ts[1]) == Ok(State([a], ["("])) by { assert e + [a] == [a]; }
    RunFirst(ts, 1, State([], ["("]));
    assert Flush(State([a], ["("])) == [a, "("] by {
      assert ["("][..0] == [] && [a] + ["("] == [a, "("];
    }
  }

  /** An OP value that is not an operator raises a KeyError once an operator is on the stack. */
  lemma UnknownOperatorKeyError(a: string, v: string)
    requires !IsOperator(v)
    ensures Parse([Token(NUMBER, a), Token(OP, "+"), Token(NUMBER, a), Token(OP, v)]) == Err(KeyError(v))
  {
    var ts := [Token(NUMBER, a), Token(OP, "+"), Token(NUMBER, a), Token(OP, v)];
    var e: seq<string> := [];
    assert ts[0..] == ts;
    assert Step(State([], []), ts[0]) == Ok(State([a], [])) by { assert e + [a] == [a]; }
    RunFirst(ts, 0, State([], []));
    assert Step(State([a], []), ts[1]) == Ok(State([a], ["+"])) by { assert e + ["+"] == ["+"]; }
    RunFirst(ts, 1, State([a], []));
    assert Step(State([a], ["+"]), ts[2]) == Ok(State([a, a], ["+"])) by { assert [a] + [a] == [a, a]; }
    RunFirst(ts, 2, State([a], ["+"]));
    assert IsOperator(["+"][0]);
    assert Step(State([a, a], ["+"]), ts[3]) == Err(KeyError(v));
    RunFirst(ts, 3, State([a, a], ["+"]));
  }

  // ---------------------------------------------------------------------
  // Agreement with compiler/infix_to_postfix.py
  // ---------------------------------------------------------------------

  /** The token of compiler/infix_to_postfix.py that a lexed token plays the part of. */
  function Translate(t: Token): I.Token {
    match t.kind
    case NUMBER => I.Token(I.NUMBER, t.value)
    case ID => I.Token(I.NUMBER, t.value)
    case ASSIGN => I.Token(I.NUMBER, "=")
    case OP => I.Token(I.OPERATOR, t.value)
    case LPAREN => I.Token(I.LPAREN, t.value)
    case RPAREN => I.Token(I.RPAREN, t.value)
  }

  function TranslateAll(ts: seq<Token>): (r: seq<I.Token>)
    ensures |r| == |ts|
    ensures forall i :: 0 <= i < |ts| ==> r[i] == Translate(ts[i])
  {
    seq(|ts|, i requires 0 <= i < |ts| => Translate(ts[i]))
  }

  function Values(stack: seq<I.Token>): (r: seq<string>)
    ensures |r| == |stack|
    ensures forall i :: 0 <= i < |stack| ==> r[i] == stack[i].value
  {
    seq(|stack|, i requires 0 <= i < |stack| => stack[i].value)
  }

  /** The state of this conversion that corresponds to a state of the other. */
  function Project(st: I.State): State {
    State(st.output, Values(st.stack))
  }

  /** Every stacked `(` token is spelled `(`, as the lexer spells it. */
  predicate ParensOk(stack: seq<I.Token>) {
    forall i :: 0 <= i < |stack| ==> stack[i].kind == I.LPAREN ==> stack[i].value == "("
  }

  predicate Related(st: I.State) { I.StackOk(st.stack) && ParensOk(st.stack) }

  /** Moving the top, in both conversions at once. */
  lemma ProjectMove(st: I.State)
    requires Related(st) && |st.stack| > 0
    ensures var top := I.Top(st.stack);
      (IsOperator(top.value) <==> top.kind == I.OPERATOR) &&
      (top.value == "(" <==> top.kind == I.LPAREN) &&
      Related(I.State(st.output + [top.value], I.Pop(st.stack))) &&
      Project(I.State(st.output + [top.value], I.Pop(st.stack))) ==
        State(st.output + [Values(st.stack)[|st.stack| - 1]], Values(st.stack)[..|st.stack| - 1])
  {
    var top := I.Top(st.stack);
    assert top == st.stack[|st.stack| - 1];
    if top.kind == I.OPERATOR {
      OperatorsAreNotOperands(top.value);
      assert top.value != "(" by { assert IsOperator(top.value) && !IsOperator("("); }
    }
    assert Values(I.Pop(st.stack)) == Values(st.stack)[..|st.stack| - 1];
  }

  lemma ProjectPush(st: I.State, t: I.Token, output: seq<string>)
    requires Related(st)
    requires (t.kind == I.OPERATOR && IsOperator(t.value)) || (t.kind == I.LPAREN && t.value == "(")
    ensures Related(I.State(output, st.stack + [t]))
    ensures Project(I.State(output, st.stack + [t])) == State(output, Values(st.stack) + [t.value])
  {
    assert Values(st.stack + [t]) == Values(st.stack) + [t.value];
  }

  lemma {:induction false} SimPopOperators(val: string, st: I.State)
    requires IsOperator(val) && Related(st)
    ensures Related(I.PopOperators(val, st))
    ensures PopOperators(val, Project(st)) == Ok(Project(I.PopOperators(val, st)))
    decreases |st.stack|
  {
    if |st.stack| > 0 {
      ProjectMove(st);
      if I.Top(st.stack).kind == I.OPERATOR && PopsBefore(val, I.Top(st.stack).value) {
        SimPopOperators(val, I.State(st.output + [I.Top(st.stack).value], I.Pop(st.stack)));
      }
    }
  }

  lemma {:induction false} SimPopToOpen(st: I.State)
    requires Related(st)
    ensures Related(I.PopToLParen(st))
    ensures PopToOpen(Project(st)) == Project(I.PopToLParen(st))
    decreases |st.stack|
  {
    if |st.stack| > 0 {
      ProjectMove(st);
      if I.Top(st.stack).kind != I.LPAREN {
        SimPopToOpen(I.State(st.output + [I.Top(st.stack).value], I.Pop(st.stack)));
      }
    }
  }

  lemma {:induction false} SimFlush(st: I.State)
    requires Related(st) && I.Flush(st).Ok?
    ensures Flush(Project(st)) == I.Flush(st).value
    decreases |st.stack|
  {
    if |st.stack| > 0 {
      ProjectMove(st);
      SimFlush(I.State(st.output + [I.Top(st.stack).value], I.Pop(st.stack)));
    }
  }

  lemma SimStepClose(st: I.State, t: Token)
    requires Related(st) && t.kind == RPAREN
    ensures I.Step(st, Translate(t)).Ok? <==> Step(Project(st), t).Ok?
    ensures I.Step(st, Translate(t)).Ok? ==>
      Related(I.Step(st, Translate(t)).value) &&
      Step(Project(st), t) == Ok(Project(I.Step(st, Translate(t)).value))
  {
    var p := I.PopToLParen(st);
    SimPopToOpen(st);
    F.PopToLParenShape(st);
    if |p.stack| > 0 {
      ProjectMove(p);
      assert Values(I.Pop(p.stack)) == Values(p.stack)[..|p.stack| - 1];
    }
  }

  lemma SimStep(st: I.State, t: Token)
    requires Related(st) && WellFormed(t)
    ensures I.Step.requires(st, Translate(t))
    ensures I.Step(st, Translate(t)).Ok? <==> Step(Project(st), t).Ok?
    ensures I.Step(st, Translate(t)).Ok? ==>
      Related(I.Step(st, Translate(t)).value) &&
      Step(Project(st), t) == Ok(Project(I.Step(st, Translate(t)).value))
  {
    var u := Translate(t);
    match t.kind
    case OP =>
      var p := I.PopOperators(t.value, st);
      SimPopOperators(t.value, st);
      ProjectPush(p, u, p.output);
    case LPAREN =>
      ProjectPush(st, u, st.output);
    case RPAREN =>
      SimStepClose(st, t);
    case _ =>
  }

  lemma {:induction false} SimRun(ts: seq<Token>, st: I.State)
    requires Lexer.AllWellFormed(ts) && Related(st)
    ensures I.OperatorsKnown(TranslateAll(ts))
    ensures I.Run(TranslateAll(ts), st).Ok? ==> Run(ts, Project(st)) == Ok(I.Run(TranslateAll(ts), st).value)
    decreases |ts|
  {
    var us := TranslateAll(ts);
    assert I.OperatorsKnown(us) by {
      forall i | 0 <= i < |us| && us[i].kind == I.OPERATOR ensures IsOperator(us[i].value) {
        assert WellFormed(ts[i]);
      }
    }
    if ts == [] {
      assert us == [];
      if I.Flush(st).Ok? {
        SimFlush(st);
      }
    } else {
      assert WellFormed(ts[0]);
      assert us[0] == Translate(ts[0]);
      assert us[1..] == TranslateAll(ts[1..]);
      assert Lexer.AllWellFormed(ts[1..]) by {
        forall i | 0 <= i < |ts[1..]| ensures WellFormed(ts[1..][i]) {
          assert ts[1..][i] == ts[i + 1];
        }
      }
      SimStep(st, ts[0]);
      if I.Step(st, us[0]).Ok? {
        SimRun(ts[1..], I.Step(st, us[0]).value);
      }
    }
  }

  /**
   * On lexed tokens whose parentheses balance, this conversion and the one of
   * compiler/infix_to_postfix.py give the same list, NUMBER and ID tokens and
   * `=` all counting as operands.
   */
  lemma ParseAgrees(ts: seq<Token>)
    requires Lexer.AllWellFormed(ts)
    ensures I.OperatorsKnown(TranslateAll(ts)) && F.OperandsKnown(TranslateAll(ts))
    ensures F.Balanced(TranslateAll(ts), 0) ==>
      I.Postfix(TranslateAll(ts)).Ok? && Parse(ts) == Ok(I.Postfix(TranslateAll(ts)).value)
  {
    var us := TranslateAll(ts);
    SimRun(ts, I.State([], []));
    assert Project(I.State([], [])) == State([], []);
    forall i | 0 <= i < |us| && us[i].kind == I.NUMBER ensures !IsOperator(us[i].value) {
      assert WellFormed(ts[i]);
    }
    F.PostfixOkIff(us);
  }

  /**
   * Consequently lexed tokens whose translation is well-formed infix (numbers
   * and identifiers alternating with operators, parentheses balanced, no
   * `=`, which would stand next to another operand) convert without error
   * into a postfix expression that a stack evaluator reduces to one value,
   * holding every operand once, in input order, and every operator once.
   * An assignment `x = e` is covered by `AssignmentWellFormed` below.
   */
  lemma ParseWellFormedInfix(ts: seq<Token>)
    requires Lexer.AllWellFormed(ts)
    ensures I.OperatorsKnown(TranslateAll(ts))
    ensures F.WellFormedInfix(TranslateAll(ts)) ==>
      Parse(ts).Ok? && F.IsPostfixExpression(Parse(ts).value) &&
      multiset(Parse(ts).value) == multiset(F.Emitted(TranslateAll(ts))) &&
      F.Operands(Parse(ts).value) == F.OperandValues(TranslateAll(ts))
  {
    var us := TranslateAll(ts);
    ParseAgrees(ts);
    if F.WellFormedInfix(us) {
      F.WellFormedInfixConverts(us);
      F.PostfixOkIff(us);
      F.PostfixOperands(us);
    }
  }

  // ---------------------------------------------------------------------
  // Assignments
  // ---------------------------------------------------------------------

  /** What is already on the output never influences the rest of the conversion. */
  lemma {:induction false} PopOperatorsPrefix(val: string, o: seq<string>, st: State)
    ensures PopOperators(val, State(o + st.output, st.stack)) ==
      match PopOperators(val, st)
      case Ok(r) => Ok(State(o + r.output, r.stack))
      case Err(e) => Err(e)
    decreases |st.stack|
  {
    var n := |st.stack|;
    if n > 0 && IsOperator(st.stack[n - 1]) && IsOperator(val) && PopsBefore(val, st.stack[n - 1]) {
      assert o + st.output + [st.stack[n - 1]] == o + (st.output + [st.stack[n - 1]]);
      PopOperatorsPrefix(val, o, State(st.output + [st.stack[n - 1]], st.stack[..n - 1]));
    }
  }

  lemma {:induction false} PopToOpenPrefix(o: seq<string>, st: State)
    ensures PopToOpen(State(o + st.output, st.stack)) ==
      State(o + PopToOpen(st).output, PopToOpen(st).stack)
    decreases |st.stack|
  {
    var n := |st.stack|;
    if n > 0 && st.stack[n - 1] != "(" {
      assert o + st.output + [st.stack[n - 1]] == o + (st.output + [st.stack[n - 1]]);
      PopToOpenPrefix(o, State(st.output + [st.stack[n - 1]], st.stack[..n - 1]));
    }
  }

  lemma {:induction false} FlushPrefix(o: seq<string>, st: State)
    ensures Flush(State(o + st.output, st.stack)) == o + Flush(st)
    decreases |st.stack|
  {
    var n := |st.stack|;
    if n > 0 {
      assert o + st.output + [st.stack[n - 1]] == o + (st.output + [st.stack[n - 1]]);
      FlushPrefix(o, State(st.output + [st.stack[n - 1]], st.stack[..n - 1]));
    }
  }

  lemma StepPrefix(o: seq<string>, st: State, t: Token)
    ensures Step(State(o + st.output, st.stack), t) ==
      match Step(st, t)
      case Ok(r) => Ok(State(o + r.output, r.stack))
      case Err(e) => Err(e)
  {
    match t.kind
    case OP => PopOperatorsPrefix(t.value, o, st);
    case RPAREN => PopToOpenPrefix(o, st);
    case _ =>
      assert o + st.output + [t.value] == o + (st.output + [t.value]);
      assert o + st.output + ["="] == o + (st.output + ["="]);
  }

  lemma {:induction false} RunPrefix(ts: seq<Token>, o: seq<string>, st: State)
    ensures Run(ts, State(o + st.output, st.stack)) == PrependAll(o, Run(ts, st))
    decreases |ts|
  {
    if ts == [] {
      FlushPrefix(o, st);
    } else {
      StepPrefix(o, st, ts[0]);
      if Step(st, ts[0]).Ok? {
        RunPrefix(ts[1..], o, Step(st, ts[0]).value);
      }
    }
  }

  /**
   * `x = e`: the name and `=` come out first, in that order, followed by the
   * conversion of `e` on its own; any error is the error of `e`.
   */
  lemma Assignment(x: string, e: seq<Token>)
    ensures Parse([Token(ID, x), Token(ASSIGN, "=")] + e) == PrependAll([x, "="], Parse(e))
  {
    var ts := [Token(ID, x), Token(ASSIGN, "=")] + e;
    var none: seq<string> := [];
    assert ts[0..] == ts && ts[2..] == e;
    assert Step(State([], []), ts[0]) == Ok(State([x], [])) by { assert none + [x] == [x]; }
    RunFirst(ts, 0, State([], []));
    assert Step(State([x], []), ts[1]) == Ok(State([x, "="], [])) by { assert [x] + ["="] == [x, "="]; }
    RunFirst(ts, 1, State([x], []));
    RunPrefix(e, [x, "="], State([], []));
    assert [x, "="] + none == [x, "="];
  }

  /**
   * `x = e` with `e` well-formed infix: the output is `x`, `=` and then a
   * postfix expression holding every lexeme of `e` except the parentheses
   * exactly once, its operands in the order of `e`.
   */
  lemma AssignmentWellFormed(x: string, e: seq<Token>)
    requires Lexer.AllWellFormed(e) && F.WellFormedInfix(TranslateAll(e))
    ensures var r := Parse([Token(ID, x), Token(ASSIGN, "=")] + e);
      r.Ok? && |r.value| >= 2 && r.value[..2] == [x, "="] &&
      F.IsPostfixExpression(r.value[2..]) &&
      multiset(r.value[2..]) == multiset(F.Emitted(TranslateAll(e))) &&
      F.Operands(r.value[2..]) == F.OperandValues(TranslateAll(e))
  {
    Assignment(x, e);
    ParseWellFormedInfix(e);
    var out := [x, "="] + Parse(e).value;
    assert out[..2] == [x, "="] && out[2..] == Parse(e).value;
  }

  // ---------------------------------------------------------------------
  // What the output holds, whatever the input
  // ---------------------------------------------------------------------

  /** What one token adds to output and stack together: `)` adds nothing, ASSIGN adds `=`. */
  function Contributes(t: Token): seq<string> {
    match t.kind
    case RPAREN => []
    case ASSIGN => ["="]
    case _ => [t.value]
  }

  function ContributesAll(ts: seq<Token>): seq<string>
    decreases |ts|
  {
    if ts == [] then [] else Contributes(ts[0]) + ContributesAll(ts[1..])
  }

  /** The `(` that a `)` takes off the stack with it. */
  function Dropped(t: Token): seq<string> {
    if t.kind == RPAREN then ["("] else []
  }

  /** One `(` for every `)` of `ts`. */
  function Discarded(ts: seq<Token>): seq<string>
    decreases |ts|
  {
    if ts == [] then [] else Dropped(ts[0]) + Discarded(ts[1..])
  }

  /** Output and stack together. */
  function Held(st: State): seq<string> {
    st.output + st.stack
  }

  /** Moving the top of the stack to the output. */
  function MoveTop(st: State): State
    requires |st.stack| > 0
  {
    State(st.output + [st.stack[|st.stack| - 1]], st.stack[..|st.stack| - 1])
  }

  lemma MoveTopKeeps(st: State)
    requires |st.stack| > 0
    ensures multiset(Held(MoveTop(st))) == multiset(Held(st))
  {
    var n := |st.stack|;
    assert st.stack == st.stack[..n - 1] + [st.stack[n - 1]];
    assert Held(st) == st.output + st.stack[..n - 1] + [st.stack[n - 1]];
    assert Held(MoveTop(st)) == st.output + [st.stack[n - 1]] + st.stack[..n - 1];
  }

  lemma {:induction false} PopOperatorsKeeps(val: string, st: State)
    ensures PopOperators(val, st).Ok? ==>
      multiset(Held(PopOperators(val, st).value)) == multiset(Held(st))
    decreases |st.stack|
  {
    var n := |st.stack|;
    if n > 0 && IsOperator(st.stack[n - 1]) && IsOperator(val) && PopsBefore(val, st.stack[n - 1]) {
      MoveTopKeeps(st);
      PopOperatorsKeeps(val, MoveTop(st));
    }
  }

  lemma {:induction false} PopToOpenKeeps(st: State)
    ensures multiset(Held(PopToOpen(st))) == multiset(Held(st))
    ensures |PopToOpen(st).stack| > 0 ==> PopToOpen(st).stack[|PopToOpen(st).stack| - 1] == "("
    decreases |st.stack|
  {
    var n := |st.stack|;
    if n > 0 && st.stack[n - 1] != "(" {
      MoveTopKeeps(st);
      PopToOpenKeeps(MoveTop(st));
    }
  }

  lemma {:induction false} FlushKeeps(st: State)
    ensures multiset(Flush(st)) == multiset(Held(st))
    decreases |st.stack|
  {
    var n := |st.stack|;
    if n > 0 {
      MoveTopKeeps(st);
      FlushKeeps(MoveTop(st));
    }
  }

  /** Pushing onto the stack or writing to the output adds the same. */
  lemma PushKeeps(st: State, v: string)
    ensures multiset(Held(State(st.output, st.stack + [v]))) == multiset(Held(st)) + multiset([v])
    ensures multiset(Held(State(st.output + [v], st.stack))) == multiset(Held(st)) + multiset([v])
  {
    assert Held(State(st.output, st.stack + [v])) == Held(st) + [v];
  }

  lemma CloseKeeps(st: State)
    requires |PopToOpen(st).stack| > 0
    ensures var p := PopToOpen(st);
      multiset(Held(State(p.output, p.stack[..|p.stack| - 1]))) + multiset(["("]) == multiset(Held(st))
  {
    var p := PopToOpen(st);
    var n := |p.stack|;
    PopToOpenKeeps(st);
    assert p.stack == p.stack[..n - 1] + ["("];
    assert Held(p) == Held(State(p.output, p.stack[..n - 1])) + ["("];
  }

  lemma OperatorKeeps(st: State, t: Token)
    requires t.kind == OP && Step(st, t).Ok?
    ensures multiset(Held(Step(st, t).value)) == multiset(Held(st)) + multiset([t.value])
  {
    PopOperatorsKeeps(t.value, st);
    var p := PopOperators(t.value, st).value;
    PushKeeps(p, t.value);
  }

  lemma CloseStepKeeps(st: State, t: Token)
    requires t.kind == RPAREN && Step(st, t).Ok?
    ensures multiset(Held(Step(st, t).value)) + multiset(["("]) == multiset(Held(st))
  {
    CloseKeeps(st);
  }

  lemma StepKeeps(st: State, t: Token)
    ensures Step(st, t).Ok? ==>
      multiset(Held(Step(st, t).value)) + multiset(Dropped(t)) ==
      multiset(Held(st)) + multiset(Contributes(t))
  {
    if Step(st, t).Ok? {
      var none: seq<string> := [];
      if t.kind == OP {
        OperatorKeeps(st, t);
        assert Dropped(t) == none && Contributes(t) == [t.value];
      } else if t.kind == RPAREN {
        CloseStepKeeps(st, t);
        assert Dropped(t) == ["("] && Contributes(t) == none;
      } else if t.kind == LPAREN {
        PushKeeps(st, t.value);
      } else if t.kind == ASSIGN {
        PushKeeps(st, "=");
      } else {
        PushKeeps(st, t.value);
      }
    }
  }

  /** The bookkeeping of one step followed by the rest. */
  lemma AddUp<T>(r: multiset<T>, h: multiset<T>, h1: multiset<T>,
                 d0: multiset<T>, ds: multiset<T>, c0: multiset<T>, cs: multiset<T>)
    requires h1 + d0 == h + c0 && r + ds == h1 + cs
    ensures r + (d0 + ds) == h + (c0 + cs)
  {
    forall x ensures (r + (d0 + ds))[x] == (h + (c0 + cs))[x] {
      assert (h1 + d0)[x] == (h + c0)[x];
      assert (r + ds)[x] == (h1 + cs)[x];
    }
  }

  lemma {:induction false} RunKeeps(ts: seq<Token>, st: State)
    ensures Run(ts, st).Ok? ==>
      multiset(Run(ts, st).value) + multiset(Discarded(ts)) ==
      multiset(Held(st)) + multiset(ContributesAll(ts))
    decreases |ts|
  {
    if ts == [] {
      FlushKeeps(st);
    } else {
      StepKeeps(st, ts[0]);
      if Step(st, ts[0]).Ok? {
        var st1 := Step(st, ts[0]).value;
        assert Run(ts, st) == Run(ts[1..], st1);
        RunKeeps(ts[1..], st1);
        if Run(ts, st).Ok? {
          assert multiset(Discarded(ts)) == multiset(Dropped(ts[0])) + multiset(Discarded(ts[1..]));
          assert multiset(ContributesAll(ts)) == multiset(Contributes(ts[0])) + multiset(ContributesAll(ts[1..]));
          AddUp(multiset(Run(ts, st).value), multiset(Held(st)), multiset(Held(st1)),
                multiset(Dropped(ts[0])), multiset(Discarded(ts[1..])),
                multiset(Contributes(ts[0])), multiset(ContributesAll(ts[1..])));
        }
      }
    }
  }

  /**
   * Whatever the tokens, a successful conversion loses and invents nothing:
   * its output holds every token's value once, `=` for ASSIGN, except that
   * no `)` is ever written and each `)` takes one `(` away with it.
   */
  lemma ParseKeeps(ts: seq<Token>)
    ensures Parse(ts).Ok? ==>
      multiset(Parse(ts).value) + multiset(Discarded(ts)) == multiset(ContributesAll(ts))
  {
    var none: seq<string> := [];
    RunKeeps(ts, State(none, none));
    assert Held(State(none, none)) == none;
  }

  /** The numbers and names of a list, in order. */
  function Names(xs: seq<string>): seq<string>
    decreases |xs|
  {
    if |xs| == 0 then []
    else Names(xs[..|xs| - 1]) + (if IsOperand(xs[|xs| - 1]) then [xs[|xs| - 1]] else [])
  }

  /** The values of the NUMBER and ID tokens, in order. */
  function NameValues(ts: seq<Token>): seq<string>
    decreases |ts|
  {
    if ts == [] then [] else (if ts[0].kind == NUMBER || ts[0].kind == ID then [ts[0].value] else []) + NameValues(ts[1..])
  }

  lemma NamesAppend(xs: seq<string>, x: string)
    ensures Names(xs + [x]) == Names(xs) + (if IsOperand(x) then [x] else [])
  {
    assert (xs + [x])[..|xs|] == xs;
  }

  /** Nothing a stack of operators and `(` holds is a number or a name. */
  lemma StackedNoName(stack: seq<string>, i: int)
    requires Stacked(stack) && 0 <= i < |stack|
    ensures !IsOperand(stack[i])
  {
    if IsOperator(stack[i]) {
      OperatorsAreNotOperands(stack[i]);
    } else {
      assert stack[i] == ['('];
      SymbolIsNoOperand('(');
    }
  }

  lemma MoveTopNames(st: State)
    requires Stacked(st.stack) && |st.stack| > 0
    ensures Names(MoveTop(st).output) == Names(st.output) && Stacked(MoveTop(st).stack)
  {
    var n := |st.stack|;
    StackedNoName(st.stack, n - 1);
    NamesAppend(st.output, st.stack[n - 1]);
    assert forall i :: 0 <= i < n - 1 ==> st.stack[..n - 1][i] == st.stack[i];
  }

  lemma {:induction false} PopOperatorsNames(val: string, st: State)
    requires Stacked(st.stack) && PopOperators(val, st).Ok?
    ensures Names(PopOperators(val, st).value.output) == Names(st.output)
    decreases |st.stack|
  {
    var n := |st.stack|;
    if n > 0 && IsOperator(st.stack[n - 1]) && IsOperator(val) && PopsBefore(val, st.stack[n - 1]) {
      MoveTopNames(st);
      PopOperatorsNames(val, MoveTop(st));
    }
  }

  lemma {:induction false} PopToOpenNames(st: State)
    requires Stacked(st.stack)
    ensures Names(PopToOpen(st).output) == Names(st.output)
    decreases |st.stack|
  {
    var n := |st.stack|;
    if n > 0 && st.stack[n - 1] != "(" {
      MoveTopNames(st);
      PopToOpenNames(MoveTop(st));
    }
  }

  lemma {:induction false} FlushNames(st: State)
    requires Stacked(st.stack)
    ensures Names(Flush(st)) == Names(st.output)
    decreases |st.stack|
  {
    if |st.stack| > 0 {
      MoveTopNames(st);
      FlushNames(MoveTop(st));
    }
  }

  lemma StepNames(st: State, t: Token)
    requires WellFormed(t) && Stacked(st.stack) && Step(st, t).Ok?
    ensures Names(Step(st, t).value.output) ==
      Names(st.output) + (if t.kind == NUMBER || t.kind == ID then [t.value] else [])
  {
    match t.kind
    case NUMBER => NamesAppend(st.output, t.value);
    case ID => NamesAppend(st.output, t.value);
    case OP => PopOperatorsNames(t.value, st);
    case RPAREN => PopToOpenNames(st);
    case ASSIGN =>
      NamesAppend(st.output, "=");
      assert "=" == ['='];
      SymbolIsNoOperand('=');
    case LPAREN =>
  }

  lemma {:induction false} RunNames(ts: seq<Token>, st: State)
    requires Lexer.AllWellFormed(ts) && Stacked(st.stack) && Run(ts, st).Ok?
    ensures Names(Run(ts, st).value) == Names(st.output) + NameValues(ts)
    decreases |ts|
  {
    if ts == [] {
      FlushNames(st);
    } else {
      assert WellFormed(ts[0]);
      StepShape(st, ts[0]);
      StepNames(st, ts[0]);
      var st1 := Step(st, ts[0]).value;
      assert Lexer.AllWellFormed(ts[1..]) by {
        forall i | 0 <= i < |ts[1..]| ensures WellFormed(ts[1..][i]) {
          assert ts[1..][i] == ts[i + 1];
        }
      }
      RunNames(ts[1..], st1);
      AppendAssoc(Names(st.output), if ts[0].kind == NUMBER || ts[0].kind == ID then [ts[0].value] else [], NameValues(ts[1..]));
    }
  }

  lemma AppendAssoc<T>(a: seq<T>, b: seq<T>, c: seq<T>)
    ensures a + b + c == a + (b + c)
  {
  }

  /**
   * Whatever the tokens, a successful conversion writes the numbers and
   * names straight through: they come out in input order, whatever else is
   * left open or assigned around them.
   */
  lemma ParseNames(ts: seq<Token>)
    requires Lexer.AllWellFormed(ts)
    ensures Parse(ts).Ok? ==> Names(Parse(ts).value) == NameValues(ts)
  {
    if Parse(ts).Ok? {
      var none: seq<string> := [];
      RunNames(ts, State(none, none));
      assert Names(none) == none;
    }
  }

  /** `a p b q c` converts as in compiler/infix_to_postfix.py: `p` is written first exactly when `q` pops it. */
  lemma TwoOperators(a: string, p: string, b: string, q: string, c: string)
    requires IsDigits(a) && IsDigits(b) && IsDigits(c) && IsOperator(p) && IsOperator(q)
    ensures Parse([Token(NUMBER, a), Token(OP, p), Token(NUMBER, b), Token(OP, q), Token(NUMBER, c)]) ==
      if PopsBefore(q, p) then Ok([a, b, p, c, q]) else Ok([a, b, c, q, p])
  {
    var e := [Token(NUMBER, a), Token(OP, p), Token(NUMBER, b), Token(OP, q), Token(NUMBER, c)];
    var us := [I.Token(I.NUMBER, a), I.Token(I.OPERATOR, p), I.Token(I.NUMBER, b), I.Token(I.OPERATOR, q), I.Token(I.NUMBER, c)];
    assert TranslateAll(e) == us;
    assert Lexer.AllWellFormed(e) by {
      forall i | 0 <= i < |e| ensures WellFormed(e[i]) {
      }
    }
    F.TwoOperators(a, p, b, q, c);
    F.PostfixOkIff(us);
    ParseAgrees(e);
  }

  /** `3 + 4 * 2` becomes `3 4 2 * +`, as in the other conversion. */
  lemma TimesBindsTighter()
    ensures Parse([Token(NUMBER, "3"), Token(OP, "+"), Token(NUMBER, "4"), Token(OP, "*"), Token(NUMBER, "2")]) ==
      Ok(["3", "4", "2", "*", "+"])
  {
    assert IsDigit("3"[0]) && IsDigit("4"[0]) && IsDigit("2"[0]);
    TwoOperators("3", "+", "4", "*", "2");
  }

  /** `x = 3 + 4 * 2` becomes `x = 3 4 2 * +`. */
  lemma AssignmentExample()
    ensures Parse([Token(ID, "x"), Token(ASSIGN, "="), Token(NUMBER, "3"), Token(OP, "+"),
                   Token(NUMBER, "4"), Token(OP, "*"), Token(NUMBER, "2")]) ==
      Ok(["x", "=", "3", "4", "2", "*", "+"])
  {
    var e := [Token(NUMBER, "3"), Token(OP, "+"), Token(NUMBER, "4"), Token(OP, "*"), Token(NUMBER, "2")];
    TimesBindsTighter();
    Assignment("x", e);
    assert [Token(ID, "x"), Token(ASSIGN, "=")] + e ==
      [Token(ID, "x"), Token(ASSIGN, "="), Token(NUMBER, "3"), Token(OP, "+"),
       Token(NUMBER, "4"), Token(OP, "*"), Token(NUMBER, "2")];
    assert ["x", "="] + ["3", "4", "2", "*", "+"] == ["x", "=", "3", "4", "2", "*", "+"];
  }
}
