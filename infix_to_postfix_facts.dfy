/**
 * What the conversion of compiler/infix_to_postfix.py guarantees: when it
 * fails, what it outputs, and that a well-formed infix expression becomes a
 * postfix expression that reduces to exactly one value.
 */
module InfixToPostfixFacts {
  import opened Results
  import opened Text
  import opened Operators
  import opened InfixToPostfix

  // ---------------------------------------------------------------------
  // Views of a state
  // ---------------------------------------------------------------------

  /** The left parentheses on the stack. */
  function OpenCount(stack: seq<Token>): nat
    decreases |stack|
  {
    if |stack| == 0 then 0
    else OpenCount(Pop(stack)) + (if Top(stack).kind == LPAREN then 1 else 0)
  }

  /** The operators on the stack, bottom first. */
  function Pending(stack: seq<Token>): seq<string>
    decreases |stack|
  {
    if |stack| == 0 then []
    else Pending(Pop(stack)) + (if Top(stack).kind == LPAREN then [] else [Top(stack).value])
  }

  /** The operands among `xs` (the entries that are not operators), in order. */
  function Operands(xs: seq<string>): seq<string>
    decreases |xs|
  {
    if |xs| == 0 then []
    else Operands(xs[..|xs| - 1]) + (if IsOperator(xs[|xs| - 1]) then [] else [xs[|xs| - 1]])
  }

  /** The values of the NUMBER and OPERATOR tokens, in input order. */
  function Emitted(ts: seq<Token>): seq<string>
    decreases |ts|
  {
    if ts == [] then []
    else (if ts[0].kind == NUMBER || ts[0].kind == OPERATOR then [ts[0].value] else []) + Emitted(ts[1..])
  }

  /** The values of the NUMBER tokens, in input order. */
  function OperandValues(ts: seq<Token>): seq<string>
    decreases |ts|
  {
    if ts == [] then [] else (if ts[0].kind == NUMBER then [ts[0].value] else []) + OperandValues(ts[1..])
  }

  /**
   * Reference definition of matched parentheses: reading from nesting depth
   * `d`, no `)` closes more than was opened and the depth ends at zero.
   */
  predicate Balanced(ts: seq<Token>, d: nat)
    decreases |ts|
  {
    if ts == [] then d == 0
    else match ts[0].kind
      case LPAREN => Balanced(ts[1..], d + 1)
      case RPAREN => d > 0 && Balanced(ts[1..], d - 1)
      case _ => Balanced(ts[1..], d)
  }

  lemma PushFacts(stack: seq<Token>, t: Token)
    ensures Pop(stack + [t]) == stack && Top(stack + [t]) == t
    ensures OpenCount(stack + [t]) == OpenCount(stack) + (if t.kind == LPAREN then 1 else 0)
    ensures Pending(stack + [t]) == Pending(stack) + (if t.kind == LPAREN then [] else [t.value])
  {
    assert (stack + [t])[..|stack|] == stack;
  }

  lemma OperandsAppend(xs: seq<string>, x: string)
    ensures Operands(xs + [x]) == Operands(xs) + (if IsOperator(x) then [] else [x])
  {
    assert (xs + [x])[..|xs|] == xs;
  }

  // ---------------------------------------------------------------------
  // The inner loops and the final flush
  // ---------------------------------------------------------------------

  /** Moving the stack top to the output keeps every view but the parenthesis count. */
  lemma MoveTop(st: State)
    requires StackOk(st.stack) && |st.stack| > 0 && Top(st.stack).kind != LPAREN
    ensures OpenCount(Pop(st.stack)) == OpenCount(st.stack)
    ensures multiset(st.output + [Top(st.stack).value]) + multiset(Pending(Pop(st.stack)))
         == multiset(st.output) + multiset(Pending(st.stack))
    ensures Operands(st.output + [Top(st.stack).value]) == Operands(st.output)
    ensures StackOk(Pop(st.stack))
  {
    var top := Top(st.stack);
    assert IsOperator(top.value);
    OperandsAppend(st.output, top.value);
  }

  lemma {:induction false} PopOperatorsFacts(op: string, st: State)
    requires IsOperator(op) && StackOk(st.stack)
    ensures var r := PopOperators(op, st);
      OpenCount(r.stack) == OpenCount(st.stack) &&
      multiset(r.output) + multiset(Pending(r.stack)) == multiset(st.output) + multiset(Pending(st.stack)) &&
      Operands(r.output) == Operands(st.output)
    decreases |st.stack|
  {
    if |st.stack| > 0 && Top(st.stack).kind == OPERATOR && PopsBefore(op, Top(st.stack).value) {
      MoveTop(st);
      PopOperatorsFacts(op, State(st.output + [Top(st.stack).value], Pop(st.stack)));
    }
  }

  /** The loop for `)` stops at the nearest `(`, or at the bottom when there is none. */
  lemma {:induction false} PopToLParenShape(st: State)
    requires StackOk(st.stack)
    ensures var r := PopToLParen(st);
      OpenCount(r.stack) == OpenCount(st.stack) &&
      (|r.stack| == 0 <==> OpenCount(st.stack) == 0) &&
      (|r.stack| > 0 ==> Top(r.stack).kind == LPAREN)
    decreases |st.stack|
  {
    if |st.stack| > 0 && Top(st.stack).kind != LPAREN {
      MoveTop(st);
      PopToLParenShape(State(st.output + [Top(st.stack).value], Pop(st.stack)));
    }
  }

  lemma {:induction false} PopToLParenFacts(st: State)
    requires StackOk(st.stack)
    ensures var r := PopToLParen(st);
      OpenCount(r.stack) == OpenCount(st.stack) &&
      (|r.stack| == 0 <==> OpenCount(st.stack) == 0) &&
      (|r.stack| > 0 ==> Top(r.stack).kind == LPAREN) &&
      multiset(r.output) + multiset(Pending(r.stack)) == multiset(st.output) + multiset(Pending(st.stack)) &&
      Operands(r.output) == Operands(st.output)
    decreases |st.stack|
  {
    if |st.stack| > 0 && Top(st.stack).kind != LPAREN {
      MoveTop(st);
      PopToLParenFacts(State(st.output + [Top(st.stack).value], Pop(st.stack)));
    }
  }

  lemma {:induction false} FlushFacts(st: State)
    requires StackOk(st.stack)
    ensures Flush(st).Ok? <==> OpenCount(st.stack) == 0
    ensures Flush(st).Ok? ==>
      multiset(Flush(st).value) == multiset(st.output) + multiset(Pending(st.stack)) &&
      Operands(Flush(st).value) == Operands(st.output)
    decreases |st.stack|
  {
    if |st.stack| > 0 && Top(st.stack).kind != LPAREN {
      MoveTop(st);
      FlushFacts(State(st.output + [Top(st.stack).value], Pop(st.stack)));
    }
  }

  // ---------------------------------------------------------------------
  // The whole conversion
  // ---------------------------------------------------------------------

  lemma StepFacts(st: State, t: Token)
    requires StackOk(st.stack) && (t.kind == OPERATOR ==> IsOperator(t.value))
    ensures Step(st, t).Ok? <==> (t.kind != RPAREN || OpenCount(st.stack) > 0)
    ensures Step(st, t).Ok? ==>
      var r := Step(st, t).value;
      OpenCount(r.stack) == OpenCount(st.stack) + (if t.kind == LPAREN then 1 else if t.kind == RPAREN then -1 else 0) &&
      multiset(r.output) + multiset(Pending(r.stack)) ==
        multiset(st.output) + multiset(Pending(st.stack)) +
        multiset(if t.kind == NUMBER || t.kind == OPERATOR then [t.value] else [])
  {
    match t.kind
    case NUMBER =>
    case OPERATOR => StepOperatorFacts(st, t);
    case LPAREN => PushFacts(st.stack, t);
    case RPAREN => StepCloseFacts(st, t);
  }

  lemma StepOperatorFacts(st: State, t: Token)
    requires StackOk(st.stack) && t.kind == OPERATOR && IsOperator(t.value)
    ensures Step(st, t).Ok?
    ensures var r := Step(st, t).value;
      OpenCount(r.stack) == OpenCount(st.stack) &&
      multiset(r.output) + multiset(Pending(r.stack)) ==
        multiset(st.output) + multiset(Pending(st.stack)) + multiset([t.value])
  {
    var p := PopOperators(t.value, st);
    PopOperatorsFacts(t.value, st);
    PushFacts(p.stack, t);
    assert Step(st, t) == Ok(State(p.output, p.stack + [t]));
  }

  lemma StepCloseFacts(st: State, t: Token)
    requires StackOk(st.stack) && t.kind == RPAREN
    ensures Step(st, t).Ok? <==> OpenCount(st.stack) > 0
    ensures Step(st, t).Ok? ==>
      var r := Step(st, t).value;
      OpenCount(r.stack) == OpenCount(st.stack) - 1 &&
      multiset(r.output) + multiset(Pending(r.stack)) == multiset(st.output) + multiset(Pending(st.stack))
  {
    var p := PopToLParen(st);
    PopToLParenFacts(st);
    if |p.stack| > 0 {
      assert Step(st, t) == Ok(State(p.output, Pop(p.stack)));
      assert OpenCount(p.stack) == OpenCount(Pop(p.stack)) + 1;
      assert Pending(p.stack) == Pending(Pop(p.stack));
    }
  }

  lemma StepOperands(st: State, t: Token)
    requires StackOk(st.stack)
    requires (t.kind == OPERATOR ==> IsOperator(t.value)) && (t.kind == NUMBER ==> !IsOperator(t.value))
    requires Step(st, t).Ok?
    ensures Operands(Step(st, t).value.output) ==
      Operands(st.output) + (if t.kind == NUMBER then [t.value] else [])
  {
    match t.kind
    case NUMBER =>
      OperandsAppend(st.output, t.value);
    case OPERATOR =>
      PopOperatorsFacts(t.value, st);
    case LPAREN =>
    case RPAREN =>
      PopToLParenFacts(st);
  }

  lemma RunFacts(ts: seq<Token>, st: State)
    requires OperatorsKnown(ts) && StackOk(st.stack)
    ensures Run(ts, st).Ok? <==> Balanced(ts, OpenCount(st.stack))
    ensures Run(ts, st).Ok? ==>
      multiset(Run(ts, st).value) == multiset(st.output) + multiset(Pending(st.stack)) + multiset(Emitted(ts))
  {
    RunBalanced(ts, st);
    if Run(ts, st).Ok? {
      RunContents(ts, st);
    }
  }

  lemma {:induction false} RunBalanced(ts: seq<Token>, st: State)
    requires OperatorsKnown(ts) && StackOk(st.stack)
    ensures Run(ts, st).Ok? <==> Balanced(ts, OpenCount(st.stack))
    decreases |ts|
  {
    if ts == [] {
      FlushFacts(st);
    } else {
      var t := ts[0];
      StepFacts(st, t);
      if Step(st, t).Ok? {
        var st' := Step(st, t).value;
        RunBalanced(ts[1..], st');
        assert Run(ts, st) == Run(ts[1..], st');
      }
    }
  }

  lemma {:induction false} RunContents(ts: seq<Token>, st: State)
    requires OperatorsKnown(ts) && StackOk(st.stack) && Run(ts, st).Ok?
    ensures multiset(Run(ts, st).value) == multiset(st.output) + multiset(Pending(st.stack)) + multiset(Emitted(ts))
    decreases |ts|
  {
    if ts == [] {
      FlushFacts(st);
    } else {
      var t := ts[0];
      var own := if t.kind == NUMBER || t.kind == OPERATOR then [t.value] else [];
      StepFacts(st, t);
      var st' := Step(st, t).value;
      RunContents(ts[1..], st');
      assert Run(ts, st) == Run(ts[1..], st');
      assert multiset(Emitted(ts)) == multiset(own) + multiset(Emitted(ts[1..])) by {
        assert Emitted(ts) == own + Emitted(ts[1..]);
      }
    }
  }

  /** What the lookups need of the first token and of the rest. */
  lemma TailKnown(ts: seq<Token>)
    requires ts != [] && OperatorsKnown(ts) && OperandsKnown(ts)
    ensures ts[0].kind == OPERATOR ==> IsOperator(ts[0].value)
    ensures ts[0].kind == NUMBER ==> !IsOperator(ts[0].value)
    ensures OperatorsKnown(ts[1..]) && OperandsKnown(ts[1..])
  {
    forall i | 0 <= i < |ts[1..]| ensures ts[1..][i] == ts[i + 1] {
    }
  }

  lemma {:induction false} RunOperands(ts: seq<Token>, st: State)
    requires OperatorsKnown(ts) && OperandsKnown(ts) && StackOk(st.stack)
    ensures Run(ts, st).Ok? ==> Operands(Run(ts, st).value) == Operands(st.output) + OperandValues(ts)
    decreases |ts|
  {
    if ts == [] {
      FlushFacts(st);
    } else {
      TailKnown(ts);
      if Step(st, ts[0]).Ok? {
        var st' := Step(st, ts[0]).value;
        var x := if ts[0].kind == NUMBER then [ts[0].value] else [];
        assert Run(ts, st) == Run(ts[1..], st');
        assert OperandValues(ts) == x + OperandValues(ts[1..]);
        StepOperands(st, ts[0]);
        RunOperands(ts[1..], st');
        if Run(ts, st).Ok? {
          ConcatChain(Operands(Run(ts, st).value), Operands(st'.output), Operands(st.output), x, OperandValues(ts[1..]), OperandValues(ts));
        }
      }
    }
  }

  /** `a == b + y`, `b == c + x` and `z == x + y` give `a == c + z`. */
  lemma ConcatChain<T>(a: seq<T>, b: seq<T>, c: seq<T>, x: seq<T>, y: seq<T>, z: seq<T>)
    requires a == b + y && b == c + x && z == x + y
    ensures a == c + z
  {
  }

  /**
   * Both directions of parenthesis checking: the conversion succeeds exactly
   * when no `)` lacks a matching `(` and no `(` is left open.
   */
  lemma PostfixOkIff(ts: seq<Token>)
    requires OperatorsKnown(ts)
    ensures Postfix(ts).Ok? <==> Balanced(ts, 0)
    ensures Postfix(ts).Err? ==> Postfix(ts).error == MismatchedParentheses
  {
    RunFacts(ts, State([], []));
    RunNeverUnexpected(ts, State([], []));
  }

  lemma {:induction false} RunNeverUnexpected(ts: seq<Token>, st: State)
    requires OperatorsKnown(ts) && StackOk(st.stack)
    ensures Run(ts, st).Err? ==> Run(ts, st).error == MismatchedParentheses
    decreases |ts|
  {
    if ts == [] {
      FlushNeverUnexpected(st);
    } else if Step(st, ts[0]).Ok? {
      RunNeverUnexpected(ts[1..], Step(st, ts[0]).value);
    }
  }

  lemma {:induction false} FlushNeverUnexpected(st: State)
    ensures Flush(st).Err? ==> Flush(st).error == MismatchedParentheses
    decreases |st.stack|
  {
    if |st.stack| > 0 && Top(st.stack).kind != LPAREN {
      FlushNeverUnexpected(State(st.output + [Top(st.stack).value], Pop(st.stack)));
    }
  }

  lemma EmittedKinds(ts: seq<Token>)
    requires AllWellFormed(ts)
    ensures forall x :: x in Emitted(ts) ==> IsDigits(x) || IsOperator(x)
    decreases |ts|
  {
    if ts != [] {
      assert WellFormed(ts[0]);
      EmittedKinds(ts[1..]);
    }
  }

  /**
   * On success the output is a rearrangement of the NUMBER and OPERATOR
   * values, without parentheses, with the operands in their input order.
   */
  lemma PostfixOperands(ts: seq<Token>)
    requires OperatorsKnown(ts) && OperandsKnown(ts) && Postfix(ts).Ok?
    ensures multiset(Postfix(ts).value) == multiset(Emitted(ts))
    ensures Operands(Postfix(ts).value) == OperandValues(ts)
  {
    RunFacts(ts, State([], []));
    RunOperands(ts, State([], []));
  }

  /**
   * For lexed tokens: exactly one entry per NUMBER and per OPERATOR token,
   * each a number or an operator, the numbers in their input order.
   */
  lemma PostfixContents(ts: seq<Token>)
    requires AllWellFormed(ts)
    requires OperatorsKnown(ts) && Postfix(ts).Ok?
    ensures multiset(Postfix(ts).value) == multiset(Emitted(ts))
    ensures |Postfix(ts).value| == |Emitted(ts)|
    ensures forall i :: 0 <= i < |Postfix(ts).value| ==>
      IsDigits(Postfix(ts).value[i]) || IsOperator(Postfix(ts).value[i])
    ensures Operands(Postfix(ts).value) == OperandValues(ts)
  {
    var out := Postfix(ts).value;
    LexedOperandsKnown(ts);
    PostfixOperands(ts);
    assert |multiset(out)| == |multiset(Emitted(ts))|;
    EmittedKinds(ts);
    forall i | 0 <= i < |out| ensures IsDigits(out[i]) || IsOperator(out[i]) {
      assert out[i] in multiset(out);
      assert out[i] in Emitted(ts);
    }
  }

  // ---------------------------------------------------------------------
  // Well-formed infix in, evaluable postfix out
  // ---------------------------------------------------------------------

  /**
   * Reference grammar of infix expressions as an automaton: where `want`
   * holds, a number or `(` must come next, otherwise an operator or `)`;
   * `d` is the nesting depth, and the input must end after an operand at
   * depth zero.
   */
  predicate Infix(ts: seq<Token>, want: bool, d: nat)
    decreases |ts|
  {
    if ts == [] then !want && d == 0
    else
      var k := ts[0].kind;
      if want then
        (k == NUMBER && Infix(ts[1..], false, d)) || (k == LPAREN && Infix(ts[1..], true, d + 1))
      else
        (k == OPERATOR && Infix(ts[1..], true, d)) || (k == RPAREN && d > 0 && Infix(ts[1..], false, d - 1))
  }

  predicate WellFormedInfix(ts: seq<Token>) { Infix(ts, true, 0) }

  /** Operands cannot be mistaken for operators (always so for lexed numbers). */
  predicate OperandsKnown(ts: seq<Token>) {
    forall i :: 0 <= i < |ts| ==> ts[i].kind == NUMBER ==> !IsOperator(ts[i].value)
  }

  /** How many values a stack evaluator holds after reading `xs`: an operand pushes one, an operator pops two and pushes one. */
  function Depth(xs: seq<string>): int
    decreases |xs|
  {
    if |xs| == 0 then 0
    else Depth(xs[..|xs| - 1]) + (if IsOperator(xs[|xs| - 1]) then -1 else 1)
  }

  /** The stack evaluator never finds fewer than two values for an operator. */
  predicate Evaluable(xs: seq<string>)
    decreases |xs|
  {
    |xs| == 0 ||
    (Evaluable(xs[..|xs| - 1]) && (!IsOperator(xs[|xs| - 1]) || Depth(xs[..|xs| - 1]) >= 2))
  }

  /** A postfix expression: evaluable, leaving exactly one value. */
  predicate IsPostfixExpression(xs: seq<string>) { Evaluable(xs) && Depth(xs) == 1 }

  lemma EvalAppend(xs: seq<string>, x: string)
    ensures Depth(xs + [x]) == Depth(xs) + (if IsOperator(x) then -1 else 1)
    ensures Evaluable(xs + [x]) <==> Evaluable(xs) && (!IsOperator(x) || Depth(xs) >= 2)
  {
    assert (xs + [x])[..|xs|] == xs;
  }

  /** The invariant of the conversion on well-formed input: each stacked operator's left operand is on the evaluator's stack. */
  predicate EvalInv(st: State, want: bool) {
    Evaluable(st.output) && Depth(st.output) == |Pending(st.stack)| + (if want then 0 else 1)
  }

  lemma MoveTopEval(st: State)
    requires StackOk(st.stack) && |st.stack| > 0 && Top(st.stack).kind != LPAREN
    requires EvalInv(st, false)
    ensures EvalInv(State(st.output + [Top(st.stack).value], Pop(st.stack)), false)
  {
    var top := Top(st.stack);
    assert IsOperator(top.value);
    EvalAppend(st.output, top.value);
  }

  lemma {:induction false} PopOperatorsEval(op: string, st: State)
    requires IsOperator(op) && StackOk(st.stack) && EvalInv(st, false)
    ensures EvalInv(PopOperators(op, st), false)
    ensures OpenCount(PopOperators(op, st).stack) == OpenCount(st.stack)
    decreases |st.stack|
  {
    PopOperatorsFacts(op, st);
    if |st.stack| > 0 && Top(st.stack).kind == OPERATOR && PopsBefore(op, Top(st.stack).value) {
      MoveTopEval(st);
      MoveTop(st);
      PopOperatorsEval(op, State(st.output + [Top(st.stack).value], Pop(st.stack)));
    }
  }

  lemma {:induction false} PopToLParenEval(st: State)
    requires StackOk(st.stack) && EvalInv(st, false)
    ensures EvalInv(PopToLParen(st), false)
    decreases |st.stack|
  {
    if |st.stack| > 0 && Top(st.stack).kind != LPAREN {
      MoveTopEval(st);
      MoveTop(st);
      PopToLParenEval(State(st.output + [Top(st.stack).value], Pop(st.stack)));
    }
  }

  lemma {:induction false} FlushEval(st: State)
    requires StackOk(st.stack) && EvalInv(st, false) && Flush(st).Ok?
    ensures IsPostfixExpression(Flush(st).value)
    decreases |st.stack|
  {
    if |st.stack| > 0 {
      MoveTopEval(st);
      MoveTop(st);
      FlushEval(State(st.output + [Top(st.stack).value], Pop(st.stack)));
    }
  }

  /** After token `t`, an operand is awaited exactly when `t` was `(` or an operator. */
  function NextWant(t: Token): bool { t.kind == LPAREN || t.kind == OPERATOR }

  function NextDepth(t: Token, d: nat): int {
    if t.kind == LPAREN then d + 1 else if t.kind == RPAREN then d - 1 else d
  }

  lemma InfixStep(t: Token, rest: seq<Token>, want: bool, d: nat)
    requires Infix([t] + rest, want, d)
    ensures NextDepth(t, d) >= 0 && Infix(rest, NextWant(t), NextDepth(t, d))
    ensures want <==> t.kind == NUMBER || t.kind == LPAREN
    ensures t.kind == RPAREN ==> d > 0
  {
    assert ([t] + rest)[0] == t && ([t] + rest)[1..] == rest;
  }

  lemma StepOperatorEval(st: State, t: Token)
    requires StackOk(st.stack) && t.kind == OPERATOR && IsOperator(t.value)
    requires EvalInv(st, false)
    ensures Step(st, t).Ok?
    ensures OpenCount(Step(st, t).value.stack) == OpenCount(st.stack)
    ensures EvalInv(Step(st, t).value, true)
  {
    var p := PopOperators(t.value, st);
    PopOperatorsEval(t.value, st);
    PushFacts(p.stack, t);
  }

  lemma StepCloseEval(st: State, t: Token)
    requires StackOk(st.stack) && t.kind == RPAREN && OpenCount(st.stack) > 0
    requires EvalInv(st, false)
    ensures Step(st, t).Ok?
    ensures OpenCount(Step(st, t).value.stack) == OpenCount(st.stack) - 1
    ensures EvalInv(Step(st, t).value, false)
  {
    var p := PopToLParen(st);
    PopToLParenEval(st);
    PopToLParenShape(st);
    assert Step(st, t) == Ok(State(p.output, Pop(p.stack)));
    assert Pop(p.stack) + [Top(p.stack)] == p.stack;
    PushFacts(Pop(p.stack), Top(p.stack));
  }

  lemma StepEval(st: State, t: Token, want: bool, d: nat)
    requires StackOk(st.stack) && (t.kind == OPERATOR ==> IsOperator(t.value)) && (t.kind == NUMBER ==> !IsOperator(t.value))
    requires OpenCount(st.stack) == d && EvalInv(st, want)
    requires want <==> t.kind == NUMBER || t.kind == LPAREN
    requires t.kind == RPAREN ==> d > 0
    ensures Step(st, t).Ok?
    ensures OpenCount(Step(st, t).value.stack) == NextDepth(t, d)
    ensures EvalInv(Step(st, t).value, NextWant(t))
  {
    match t.kind
    case NUMBER =>
      EvalAppend(st.output, t.value);
    case LPAREN =>
      PushFacts(st.stack, t);
    case OPERATOR =>
      StepOperatorEval(st, t);
    case RPAREN =>
      StepCloseEval(st, t);
  }

  lemma {:induction false} RunEval(ts: seq<Token>, st: State, want: bool, d: nat)
    requires OperatorsKnown(ts) && OperandsKnown(ts) && StackOk(st.stack)
    requires Infix(ts, want, d) && OpenCount(st.stack) == d && EvalInv(st, want)
    ensures Run(ts, st).Ok? && IsPostfixExpression(Run(ts, st).value)
    decreases |ts|
  {
    if ts == [] {
      FlushFacts(st);
      FlushEval(st);
    } else {
      assert ts == [ts[0]] + ts[1..];
      InfixStep(ts[0], ts[1..], want, d);
      assert ts[0].kind == NUMBER ==> !IsOperator(ts[0].value);
      StepEval(st, ts[0], want, d);
      assert OperandsKnown(ts[1..]) by {
        forall i | 0 <= i < |ts[1..]| && ts[1..][i].kind == NUMBER ensures !IsOperator(ts[1..][i].value) {
          assert ts[1..][i] == ts[i + 1];
        }
      }
      RunEval(ts[1..], Step(st, ts[0]).value, NextWant(ts[0]), NextDepth(ts[0], d));
    }
  }

  /**
   * A well-formed infix expression converts without error into a postfix
   * expression that a stack evaluator reduces to exactly one value.
   */
  lemma WellFormedInfixConverts(ts: seq<Token>)
    requires OperatorsKnown(ts) && OperandsKnown(ts) && WellFormedInfix(ts)
    ensures Postfix(ts).Ok? && IsPostfixExpression(Postfix(ts).value)
  {
    RunEval(ts, State([], []), true, 0);
  }

  /** Tokens from the lexer meet the conditions above. */
  lemma LexedOperandsKnown(ts: seq<Token>)
    requires AllWellFormed(ts)
    ensures OperatorsKnown(ts) && OperandsKnown(ts)
  {
    forall i | 0 <= i < |ts| && ts[i].kind == NUMBER ensures !IsOperator(ts[i].value) {
      assert WellFormed(ts[i]);
    }
  }

  // ---------------------------------------------------------------------
  // Grouping: precedence, associativity and parentheses
  // ---------------------------------------------------------------------

  /**
   * `a p b q c`: the first operator is applied first exactly when the second
   * pops it (it binds at least as tightly, or equally and to the left);
   * otherwise `b q c` is grouped first.
   */
  lemma TwoOperators(a: string, p: string, b: string, q: string, c: string)
    requires IsOperator(p) && IsOperator(q)
    ensures OperatorsKnown([Token(NUMBER, a), Token(OPERATOR, p), Token(NUMBER, b), Token(OPERATOR, q), Token(NUMBER, c)])
    ensures Postfix([Token(NUMBER, a), Token(OPERATOR, p), Token(NUMBER, b), Token(OPERATOR, q), Token(NUMBER, c)]) ==
      if PopsBefore(q, p) then Ok([a, b, p, c, q]) else Ok([a, b, c, q, p])
  {
    var ts := [Token(NUMBER, a), Token(OPERATOR, p), Token(NUMBER, b), Token(OPERATOR, q), Token(NUMBER, c)];
    TwoOperatorsStart(ts, a, p, b, q, c);
    if PopsBefore(q, p) {
      TwoOperatorsPopped(ts, a, p, b, q, c);
    } else {
      TwoOperatorsKept(ts, a, p, b, q, c);
    }
  }

  /** `a p b` leaves `a b` on the output and `p` on the stack. */
  lemma TwoOperatorsStart(ts: seq<Token>, a: string, p: string, b: string, q: string, c: string)
    requires IsOperator(p) && IsOperator(q)
    requires ts == [Token(NUMBER, a), Token(OPERATOR, p), Token(NUMBER, b), Token(OPERATOR, q), Token(NUMBER, c)]
    ensures OperatorsKnown(ts) && OperatorsKnown(ts[3..])
    ensures Postfix(ts) == Run(ts[3..], State([a, b], [ts[1]]))
  {
    var e: seq<string> := [];
    var none: seq<Token> := [];
    var s1 := State([a], []);
    var s2 := State([a], [ts[1]]);
    var s3 := State([a, b], [ts[1]]);
    assert ts[0..] == ts;
    assert Step(State([], []), ts[0]) == Ok(s1) by { assert e + [a] == [a]; }
    assert Step(s1, ts[1]) == Ok(s2) by { assert none + [ts[1]] == [ts[1]]; }
    assert Step(s2, ts[2]) == Ok(s3) by { assert [a] + [b] == [a, b]; }
    RunFirst(ts, 0, State([], []));
    RunFirst(ts, 1, s1);
    RunFirst(ts, 2, s2);
  }

  /** When `q` pops `p`, `p` is written before `c`. */
  lemma TwoOperatorsPopped(ts: seq<Token>, a: string, p: string, b: string, q: string, c: string)
    requires IsOperator(p) && IsOperator(q) && PopsBefore(q, p)
    requires ts == [Token(NUMBER, a), Token(OPERATOR, p), Token(NUMBER, b), Token(OPERATOR, q), Token(NUMBER, c)]
    ensures OperatorsKnown(ts[3..])
    ensures Run(ts[3..], State([a, b], [ts[1]])) == Ok([a, b, p, c, q])
  {
    var none: seq<Token> := [];
    var s3 := State([a, b], [ts[1]]);
    var s4 := State([a, b, p], [ts[3]]);
    var s5 := State([a, b, p, c], [ts[3]]);
    assert ts[5..] == [];
    assert Step(s3, ts[3]) == Ok(s4) by {
      assert [a, b] + [p] == [a, b, p] && none + [ts[3]] == [ts[3]] && Pop(s3.stack) == [];
      assert PopOperators(q, s3) == State([a, b, p], []);
    }
    assert Step(s4, ts[4]) == Ok(s5) by { assert [a, b, p] + [c] == [a, b, p, c]; }
    assert Flush(s5) == Ok([a, b, p, c, q]) by {
      assert [a, b, p, c] + [q] == [a, b, p, c, q] && Pop(s5.stack) == [];
    }
    RunFirst(ts, 3, s3);
    RunFirst(ts, 4, s4);
  }

  /** When `q` does not pop `p`, both wait on the stack until the end. */
  lemma TwoOperatorsKept(ts: seq<Token>, a: string, p: string, b: string, q: string, c: string)
    requires IsOperator(p) && IsOperator(q) && !PopsBefore(q, p)
    requires ts == [Token(NUMBER, a), Token(OPERATOR, p), Token(NUMBER, b), Token(OPERATOR, q), Token(NUMBER, c)]
    ensures OperatorsKnown(ts[3..])
    ensures Run(ts[3..], State([a, b], [ts[1]])) == Ok([a, b, c, q, p])
  {
    var s3 := State([a, b], [ts[1]]);
    var s4 := State([a, b], [ts[1], ts[3]]);
    var s5 := State([a, b, c], [ts[1], ts[3]]);
    assert ts[5..] == [];
    assert Step(s3, ts[3]) == Ok(s4) by { assert [ts[1]] + [ts[3]] == [ts[1], ts[3]]; }
    assert Step(s4, ts[4]) == Ok(s5) by { assert [a, b] + [c] == [a, b, c]; }
    assert Flush(s5) == Ok([a, b, c, q, p]) by {
      assert [a, b, c] + [q] == [a, b, c, q] && [a, b, c, q] + [p] == [a, b, c, q, p];
      assert Pop(s5.stack) == [ts[1]] && Pop([ts[1]]) == [];
      assert Flush(s5) == Flush(State([a, b, c, q], [ts[1]]));
    }
    RunFirst(ts, 3, s3);
    RunFirst(ts, 4, s4);
  }

  /** `a p b q c` with `p` binding tighter than `q` is `(a p b) q c`. */
  lemma TighterFirst(a: string, p: string, b: string, q: string, c: string)
    requires IsOperator(p) && IsOperator(q) && Precedence(p) > Precedence(q)
    ensures Postfix([Token(NUMBER, a), Token(OPERATOR, p), Token(NUMBER, b), Token(OPERATOR, q), Token(NUMBER, c)]) ==
      Ok([a, b, p, c, q])
  {
    TwoOperators(a, p, b, q, c);
  }

  /** `a p b q c` with `q` binding tighter than `p` is `a p (b q c)`; for instance `3 + 4 * 2` becomes `3 4 2 * +`. */
  lemma TighterLast(a: string, p: string, b: string, q: string, c: string)
    requires IsOperator(p) && IsOperator(q) && Precedence(q) > Precedence(p)
    ensures Postfix([Token(NUMBER, a), Token(OPERATOR, p), Token(NUMBER, b), Token(OPERATOR, q), Token(NUMBER, c)]) ==
      Ok([a, b, c, q, p])
  {
    TwoOperators(a, p, b, q, c);
  }

  /** Operators of equal precedence other than `^` group to the left: `8 - 3 - 2` is `(8 - 3) - 2`. */
  lemma EqualGroupLeft(a: string, p: string, b: string, q: string, c: string)
    requires IsOperator(p) && IsOperator(q) && Precedence(p) == Precedence(q) && q != "^"
    ensures Postfix([Token(NUMBER, a), Token(OPERATOR, p), Token(NUMBER, b), Token(OPERATOR, q), Token(NUMBER, c)]) ==
      Ok([a, b, p, c, q])
  {
    assert q != ['^'];
    TwoOperators(a, p, b, q, c);
  }

  /** `^` groups to the right: `a ^ b ^ c` is `a ^ (b ^ c)`. */
  lemma PowerGroupsRight(a: string, b: string, c: string)
    ensures Postfix([Token(NUMBER, a), Token(OPERATOR, "^"), Token(NUMBER, b), Token(OPERATOR, "^"), Token(NUMBER, c)]) ==
      Ok([a, b, c, "^", "^"])
  {
    TwoOperators(a, "^", b, "^", c);
  }

  /** `(a p b) q c`: the parenthesised operator is applied first whatever `q` is. */
  lemma ParenthesesGroupFirst(a: string, p: string, b: string, q: string, c: string)
    requires IsOperator(p) && IsOperator(q)
    ensures OperatorsKnown([Token(LPAREN, "("), Token(NUMBER, a), Token(OPERATOR, p), Token(NUMBER, b), Token(RPAREN, ")"), Token(OPERATOR, q), Token(NUMBER, c)])
    ensures Postfix([Token(LPAREN, "("), Token(NUMBER, a), Token(OPERATOR, p), Token(NUMBER, b), Token(RPAREN, ")"), Token(OPERATOR, q), Token(NUMBER, c)]) ==
      Ok([a, b, p, c, q])
  {
    var ts := [Token(LPAREN, "("), Token(NUMBER, a), Token(OPERATOR, p), Token(NUMBER, b), Token(RPAREN, ")"), Token(OPERATOR, q), Token(NUMBER, c)];
    GroupOpen(ts, a, p, b, q, c);
    GroupClose(ts, a, p, b, q, c);
    GroupRest(ts, a, p, b, q, c);
  }

  /** `( a p b` leaves `a b` on the output and `( p` on the stack. */
  lemma GroupOpen(ts: seq<Token>, a: string, p: string, b: string, q: string, c: string)
    requires IsOperator(p) && IsOperator(q)
    requires ts == [Token(LPAREN, "("), Token(NUMBER, a), Token(OPERATOR, p), Token(NUMBER, b), Token(RPAREN, ")"), Token(OPERATOR, q), Token(NUMBER, c)]
    ensures OperatorsKnown(ts) && OperatorsKnown(ts[4..])
    ensures Postfix(ts) == Run(ts[4..], State([a, b], [ts[0], ts[2]]))
  {
    var e: seq<string> := [];
    var none: seq<Token> := [];
    var s1 := State([], [ts[0]]);
    var s2 := State([a], [ts[0]]);
    var s3 := State([a], [ts[0], ts[2]]);
    assert ts[0..] == ts;
    assert Step(State([], []), ts[0]) == Ok(s1) by { assert none + [ts[0]] == [ts[0]]; }
    assert Step(s1, ts[1]) == Ok(s2) by { assert e + [a] == [a]; }
    assert Step(s2, ts[2]) == Ok(s3) by { assert [ts[0]] + [ts[2]] == [ts[0], ts[2]]; }
    assert Step(s3, ts[3]) == Ok(State([a, b], [ts[0], ts[2]])) by { assert [a] + [b] == [a, b]; }
    RunFirst(ts, 0, State([], []));
    RunFirst(ts, 1, s1);
    RunFirst(ts, 2, s2);
    RunFirst(ts, 3, s3);
  }

  /** The `)` moves `p` to the output and drops the `(`. */
  lemma GroupClose(ts: seq<Token>, a: string, p: string, b: string, q: string, c: string)
    requires IsOperator(p) && IsOperator(q)
    requires ts == [Token(LPAREN, "("), Token(NUMBER, a), Token(OPERATOR, p), Token(NUMBER, b), Token(RPAREN, ")"), Token(OPERATOR, q), Token(NUMBER, c)]
    ensures OperatorsKnown(ts[4..]) && OperatorsKnown(ts[5..])
    ensures Run(ts[4..], State([a, b], [ts[0], ts[2]])) == Run(ts[5..], State([a, b, p], []))
  {
    var s4 := State([a, b], [ts[0], ts[2]]);
    assert OperatorsKnown(ts);
    assert PopToLParen(s4) == State([a, b, p], [ts[0]]) by {
      assert [a, b] + [p] == [a, b, p] && Pop(s4.stack) == [ts[0]];
    }
    assert Pop([ts[0]]) == [];
    assert Step(s4, ts[4]) == Ok(State([a, b, p], []));
    RunFirst(ts, 4, s4);
  }

  /** From an empty stack, `q c` appends `c` and then flushes `q`. */
  lemma OperatorOperandRun(out: seq<string>, q: string, c: string)
    requires IsOperator(q)
    ensures OperatorsKnown([Token(OPERATOR, q), Token(NUMBER, c)])
    ensures Run([Token(OPERATOR, q), Token(NUMBER, c)], State(out, [])) == Ok(out + [c, q])
  {
    var t := [Token(OPERATOR, q), Token(NUMBER, c)];
    var none: seq<Token> := [];
    var s1 := State(out, [t[0]]);
    var s2 := State(out + [c], [t[0]]);
    assert Step(State(out, []), t[0]) == Ok(s1) by { assert none + [t[0]] == [t[0]]; }
    assert Step(s1, t[1]) == Ok(s2);
    assert Flush(s2) == Ok(out + [c, q]) by {
      assert out + [c] + [q] == out + [c, q] && Pop(s2.stack) == [];
    }
    RunFirst(t, 0, State(out, []));
    RunFirst(t, 1, s1);
    assert t[0..] == t && t[2..] == [];
  }

  /** `q c` then flushes to `c q`. */
  lemma GroupRest(ts: seq<Token>, a: string, p: string, b: string, q: string, c: string)
    requires IsOperator(p) && IsOperator(q)
    requires ts == [Token(LPAREN, "("), Token(NUMBER, a), Token(OPERATOR, p), Token(NUMBER, b), Token(RPAREN, ")"), Token(OPERATOR, q), Token(NUMBER, c)]
    ensures OperatorsKnown(ts[5..])
    ensures Run(ts[5..], State([a, b, p], [])) == Ok([a, b, p, c, q])
  {
    assert ts[5..] == [Token(OPERATOR, q), Token(NUMBER, c)];
    OperatorOperandRun([a, b, p], q, c);
    assert [a, b, p] + [c, q] == [a, b, p, c, q];
  }

  // ---------------------------------------------------------------------
  // compile_expression
  // ---------------------------------------------------------------------

  predicate IsSyntaxErrorText(out: string) {
    |out| >= 14 && out[..14] == "Syntax Error: "
  }

  /** A successful conversion consists of digits, operator characters and spaces, so it never starts like an error message. */
  lemma PostfixTextIsNotError(ts: seq<Token>)
    requires AllWellFormed(ts) && OperatorsKnown(ts) && ToPostfix(ts).Ok?
    ensures !IsSyntaxErrorText(ToPostfix(ts).value)
  {
    var out := Postfix(ts).value;
    PostfixContents(ts);
    if |out| > 0 {
      assert IsDigits(out[0]) || IsOperator(out[0]);
      JoinHead(out, " ");
    }
  }

  /** `compile_expression` reports an error, and only then, when one of its stages fails. */
  lemma CompileFailsIff(s: string)
    ensures Lex(s).Ok? ==> OperatorsKnown(Lex(s).value)
    ensures IsSyntaxErrorText(Compile(s)) <==> Lex(s).Err? || ToPostfix(Lex(s).value).Err?
  {
    LexWellFormed(s);
    match Lex(s)
    case Err(e) =>
      assert Compile(s) == "Syntax Error: " + Message(e);
    case Ok(ts) =>
      match ToPostfix(ts)
      case Err(e) =>
        assert Compile(s) == "Syntax Error: " + Message(e);
      case Ok(p) =>
        PostfixTextIsNotError(ts);
  }
}
