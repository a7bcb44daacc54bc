/**
 * What the pipeline of compiler/app.py guarantees: which token lists its
 * check accepts, that its conversion agrees with the one of
 * compiler/parser.py on lexed input without `=` and `^`, that an assignment
 * puts `=` last, and that a well-formed expression compiles into a tree
 * whose post-order reading is the postfix list.
 */
module AppFacts {
  import opened Results
  import opened Text
  import opened Operators
  import opened Lexer
  import opened Ast
  import opened App
  import P = Parser
  import PF = ParserFacts
  import F = InfixToPostfixFacts

  // ---------------------------------------------------------------------
  // extract_token_values and check_semantics
  // ---------------------------------------------------------------------

  /** Written one after the other, the extracted values spell the token list. */
  lemma {:induction false} TokenValuesSpelling(ts: seq<Token>)
    ensures Concat(TokenValues(ts)) == Spelling(ts)
    decreases |ts|
  {
    if ts != [] {
      TokenValuesSpelling(ts[1..]);
      assert TokenValues(ts)[1..] == TokenValues(ts[1..]);
    }
  }

  /** So the values of a lexed input are its characters without blanks and newlines. */
  lemma LexedValues(s: string)
    requires Lex(s).Ok?
    ensures Concat(TokenValues(Lex(s).value)) == Keep(IsTokenChar, s)
  {
    TokenValuesSpelling(Lex(s).value);
    LexSpelling(s);
  }

  lemma {:induction false} ValidateFromIff(ts: seq<string>, k: nat)
    requires k <= |ts|
    ensures ValidateFrom(ts, k).Ok? <==> forall i :: k <= i < |ts| ==> IsValidToken(ts[i])
    ensures ValidateFrom(ts, k).Err? ==>
      exists i :: k <= i < |ts| && !IsValidToken(ts[i]) && ValidateFrom(ts, k).error == InvalidToken(ts[i]) &&
        forall j :: k <= j < i ==> IsValidToken(ts[j])
    decreases |ts| - k
  {
    if k < |ts| {
      ValidateFromIff(ts, k + 1);
      if IsValidToken(ts[k]) && ValidateFrom(ts, k).Err? {
        var i :| k + 1 <= i < |ts| && !IsValidToken(ts[i]) && ValidateFrom(ts, k).error == InvalidToken(ts[i]) &&
          forall j :: k + 1 <= j < i ==> IsValidToken(ts[j]);
        assert forall j :: k <= j < i ==> IsValidToken(ts[j]);
      }
    }
  }

  /** The check passes exactly when every token is valid, and otherwise names the first invalid one. */
  lemma ValidateIff(ts: seq<string>, x: string)
    ensures Validate(ts).Ok? <==> forall i :: 0 <= i < |ts| ==> IsValidToken(ts[i])
    ensures Validate(ts) == Err(InvalidToken(x)) <==>
      exists i :: 0 <= i < |ts| && !IsValidToken(ts[i]) && ts[i] == x && forall j :: 0 <= j < i ==> IsValidToken(ts[j])
  {
    ValidateFromIff(ts, 0);
    if exists i :: 0 <= i < |ts| && !IsValidToken(ts[i]) && ts[i] == x && forall j :: 0 <= j < i ==> IsValidToken(ts[j]) {
      var i :| 0 <= i < |ts| && !IsValidToken(ts[i]) && ts[i] == x && forall j :: 0 <= j < i ==> IsValidToken(ts[j]);
      var i' :| 0 <= i' < |ts| && !IsValidToken(ts[i']) && Validate(ts).error == InvalidToken(ts[i']) &&
        forall j :: 0 <= j < i' ==> IsValidToken(ts[j]);
      assert i == i';
    }
  }

  lemma LexedValueValid(t: Token)
    requires WellFormed(t)
    ensures IsValidToken(t.value) <==> t.value != "^"
  {
    assert "^"[0] == '^';
    match t.kind
    case NUMBER => assert IsDigit(t.value[0]);
    case ID => assert IsIdentStart(t.value[0]);
    case OP =>
      var v := t.value;
      assert v == [v[0]];
      SymbolIsNoOperand(v[0]);
    case _ =>
  }

  /** Of the values lexer.py produces, `^` is the only one the check rejects. */
  lemma LexedValidate(ts: seq<Token>)
    requires AllWellFormed(ts)
    ensures Validate(TokenValues(ts)).Ok? <==> forall i :: 0 <= i < |ts| ==> ts[i].value != "^"
    ensures Validate(TokenValues(ts)).Err? ==> Validate(TokenValues(ts)) == Err(InvalidToken("^"))
  {
    var vs := TokenValues(ts);
    forall i | 0 <= i < |ts| ensures IsValidToken(vs[i]) <==> vs[i] != "^" {
      assert WellFormed(ts[i]);
      LexedValueValid(ts[i]);
    }
    ValidateFromIff(vs, 0);
  }

  // ---------------------------------------------------------------------
  // generate_code
  // ---------------------------------------------------------------------

  /** A one-character entry that is no digit, letter or underscore: an operator or a parenthesis. */
  predicate IsSymbol(t: string) { |t| == 1 && !IsIdentChar(t[0]) }

  /** Reading an instruction back: the operand after `PUSH `, otherwise the instruction itself. */
  function Decode(i: string): string {
    if |i| >= 5 && i[..5] == "PUSH " then i[5..] else i
  }

  function DecodeAll(code: seq<string>): (r: seq<string>)
    ensures |r| == |code|
  {
    seq(|code|, k requires 0 <= k < |code| => Decode(code[k]))
  }

  lemma DecodeAllAppend(code: seq<string>, i: string)
    ensures DecodeAll(code + [i]) == DecodeAll(code) + [Decode(i)]
  {
    assert forall k :: 0 <= k < |code| ==> (code + [i])[k] == code[k];
  }

  /** Operands are pushed, names included, and symbols come out unchanged. */
  lemma CodeOf(t: string)
    requires IsOperand(t) || IsSymbol(t)
    ensures Code(t) == if IsOperand(t) then "PUSH " + t else t
    ensures Decode(Code(t)) == t
  {
    if IsOperand(t) {
      assert ("PUSH " + t)[..5] == "PUSH " && ("PUSH " + t)[5..] == t;
    } else {
      assert Upper(t) == t by { assert Upper(t)[0] == t[0]; }
    }
  }

  /**
   * One instruction per entry, in order; on entries that are operands or
   * symbols, decoding the instructions gives back the postfix list.
   */
  lemma {:induction false} InstructionsDecode(p: seq<string>)
    requires forall k :: 0 <= k < |p| ==> IsOperand(p[k]) || IsSymbol(p[k])
    ensures |Instructions(p)| == |p|
    ensures forall k :: 0 <= k < |p| ==> Instructions(p)[k] == Code(p[k])
    ensures DecodeAll(Instructions(p)) == p
    decreases |p|
  {
    if |p| > 0 {
      var q, t := p[..|p| - 1], p[|p| - 1];
      InstructionsDecode(q);
      CodeOf(t);
      assert Instructions(p) == Instructions(q) + [Code(t)];
      DecodeAllAppend(Instructions(q), Code(t));
      assert q + [t] == p;
    }
  }

  /** `x 3 +` gives `PUSH x`, `PUSH 3`, `+`: a name is pushed like a number. */
  lemma CodeExample()
    ensures Instructions(["x", "3", "+"]) == ["PUSH x", "PUSH 3", "+"]
  {
    var p := ["x", "3", "+"];
    assert IsIdentStart("x"[0]) && IsDigit("3"[0]) && !IsIdentChar("+"[0]);
    CodeOf("x");
    CodeOf("3");
    CodeOf("+");
    InstructionsDecode(p);
    assert "PUSH " + "x" == "PUSH x" && "PUSH " + "3" == "PUSH 3";
  }

  // ---------------------------------------------------------------------
  // Agreement of infix_to_postfix with compiler/parser.py
  // ---------------------------------------------------------------------

  /** The four keys of the table other than `=`. */
  predicate IsArith(t: string) { t == "+" || t == "-" || t == "*" || t == "/" }

  /** The stack holds arithmetic operators and `(` only. */
  predicate StackOk(stack: seq<string>) {
    forall k :: 0 <= k < |stack| ==> IsArith(stack[k]) || stack[k] == "("
  }

  /** Lexed tokens without `=` and `^`. */
  predicate Plain(ts: seq<Token>) {
    forall i :: 0 <= i < |ts| ==> ts[i].kind != ASSIGN && ts[i].value != "^"
  }

  function AsParser(st: State): P.State { P.State(st.output, st.stack) }

  /** The table of compiler/app.py and the shared tables agree on the four operators. */
  lemma ArithFacts(t: string)
    requires IsArith(t)
    ensures IsOperator(t) && Assoc(t) == L && Precedence(t) == Rank(t) && InTable(t)
    ensures !IsOperand(t) && IsSymbol(t) && t != "("
  {
    assert t == [t[0]];
    SymbolIsNoOperand(t[0]);
  }

  lemma StackOkPop(stack: seq<string>)
    requires StackOk(stack) && |stack| > 0
    ensures StackOk(stack[..|stack| - 1])
    ensures IsOperator(stack[|stack| - 1]) <==> stack[|stack| - 1] != "("
  {
    var top := stack[|stack| - 1];
    if top != "(" {
      ArithFacts(top);
    } else {
      assert !IsOperator(top) by { assert top[0] == '('; }
    }
  }

  lemma {:induction false} SimPopLower(t: string, st: State)
    requires IsArith(t) && StackOk(st.stack)
    ensures StackOk(PopLower(t, st).stack)
    ensures P.PopOperators(t, AsParser(st)) == Ok(AsParser(PopLower(t, st)))
    decreases |st.stack|
  {
    ArithFacts(t);
    var n := |st.stack|;
    if n > 0 {
      var top := st.stack[n - 1];
      var next := State(st.output + [top], st.stack[..n - 1]);
      StackOkPop(st.stack);
      if top != "(" {
        ArithFacts(top);
        if Rank(t) <= Rank(top) {
          assert PopLower(t, st) == PopLower(t, next);
          assert P.PopOperators(t, AsParser(st)) == P.PopOperators(t, AsParser(next));
          SimPopLower(t, next);
        } else {
          assert PopLower(t, st) == st;
        }
      }
    }
  }

  lemma {:induction false} SimPopToOpen(st: State)
    requires StackOk(st.stack)
    ensures StackOk(PopToOpen(st).stack)
    ensures P.PopToOpen(AsParser(st)) == AsParser(PopToOpen(st))
    decreases |st.stack|
  {
    var n := |st.stack|;
    if n > 0 && st.stack[n - 1] != "(" {
      StackOkPop(st.stack);
      SimPopToOpen(State(st.output + [st.stack[n - 1]], st.stack[..n - 1]));
    }
  }

  lemma {:induction false} SimFlush(st: State)
    ensures P.Flush(AsParser(st)) == Flush(st)
    decreases |st.stack|
  {
    var n := |st.stack|;
    if n > 0 {
      SimFlush(State(st.output + [st.stack[n - 1]], st.stack[..n - 1]));
    }
  }

  lemma SimStep(st: State, t: Token)
    requires StackOk(st.stack) && WellFormed(t) && t.kind != ASSIGN && t.value != "^"
    ensures Step(st, t.value).Ok? <==> P.Step(AsParser(st), t).Ok?
    ensures Step(st, t.value).Ok? ==>
      StackOk(Step(st, t.value).value.stack) && P.Step(AsParser(st), t) == Ok(AsParser(Step(st, t.value).value))
    ensures Step(st, t.value).Err? ==> Step(st, t.value) == Err(PopFromEmptyList)
  {
    var v := t.value;
    match t.kind
    case NUMBER =>
    case ID =>
    case OP =>
      assert v == [v[0]];
      ArithFacts(v);
      SimPopLower(v, st);
    case LPAREN =>
      assert !IsOperand(v) && !InTable(v) by { SymbolIsNoOperand('('); assert v == ['(']; }
    case RPAREN =>
      assert !IsOperand(v) && !InTable(v) by { SymbolIsNoOperand(')'); assert v == [')']; }
      SimPopToOpen(st);
      var p := PopToOpen(st);
      if |p.stack| > 0 {
        StackOkPop(p.stack);
      }
  }

  lemma {:induction false} SimRun(ts: seq<Token>, st: State)
    requires AllWellFormed(ts) && Plain(ts) && StackOk(st.stack)
    ensures Run(TokenValues(ts), st).Ok? <==> P.Run(ts, AsParser(st)).Ok?
    ensures Run(TokenValues(ts), st).Ok? ==> Run(TokenValues(ts), st).value == P.Run(ts, AsParser(st)).value
    ensures Run(TokenValues(ts), st).Err? ==> Run(TokenValues(ts), st) == Err(PopFromEmptyList)
    decreases |ts|
  {
    var vs := TokenValues(ts);
    if ts == [] {
      assert vs == [];
      SimFlush(st);
    } else {
      assert WellFormed(ts[0]);
      assert vs[0] == ts[0].value && vs[1..] == TokenValues(ts[1..]);
      SimStep(st, ts[0]);
      if Step(st, vs[0]).Ok? {
        assert AllWellFormed(ts[1..]) && Plain(ts[1..]) by {
          forall i | 0 <= i < |ts[1..]| ensures WellFormed(ts[1..][i]) && ts[1..][i].kind != ASSIGN && ts[1..][i].value != "^" {
            assert ts[1..][i] == ts[i + 1];
          }
        }
        SimRun(ts[1..], Step(st, vs[0]).value);
      }
    }
  }

  /**
   * On lexed tokens without `=` and `^`, this conversion and the one of
   * compiler/parser.py give the same list; it fails exactly when some `)`
   * has no `(` before it, and then on the `pop` of an empty stack.
   */
  lemma ConvertAgrees(ts: seq<Token>)
    requires AllWellFormed(ts) && Plain(ts)
    ensures Convert(TokenValues(ts)).Ok? <==> PF.Closes(ts, 0)
    ensures Convert(TokenValues(ts)).Ok? ==> P.Parse(ts) == Ok(Convert(TokenValues(ts)).value)
    ensures Convert(TokenValues(ts)).Err? ==> Convert(TokenValues(ts)) == Err(PopFromEmptyList)
  {
    SimRun(ts, State([], []));
    PF.ParseOkIff(ts);
  }

  // ---------------------------------------------------------------------
  // The whole pipeline
  // ---------------------------------------------------------------------

  /** The operands, operators and `=` of lexed tokens, as the other conversion emits them. */
  lemma {:induction false} EmittedEntries(ts: seq<Token>)
    requires AllWellFormed(ts) && Plain(ts)
    ensures forall x :: x in F.Emitted(PF.TranslateAll(ts)) ==> IsOperand(x) || IsArith(x)
    decreases |ts|
  {
    if ts != [] {
      var us := PF.TranslateAll(ts);
      assert us[1..] == PF.TranslateAll(ts[1..]);
      assert AllWellFormed(ts[1..]) && Plain(ts[1..]) by {
        forall i | 0 <= i < |ts[1..]| ensures WellFormed(ts[1..][i]) && ts[1..][i].kind != ASSIGN && ts[1..][i].value != "^" {
          assert ts[1..][i] == ts[i + 1];
        }
      }
      EmittedEntries(ts[1..]);
      assert WellFormed(ts[0]);
      if ts[0].kind == OP {
        var v := ts[0].value;
        assert v == [v[0]];
      }
    }
  }

  /** On operands and operators the evaluator of the Ast module counts as the one of the other conversion. */
  lemma {:induction false} EvaluableAgree(xs: seq<string>)
    requires forall k :: 0 <= k < |xs| ==> IsOperand(xs[k]) || IsArith(xs[k])
    ensures Ast.Depth(xs) == F.Depth(xs)
    ensures Ast.Evaluable(xs) <==> F.Evaluable(xs)
    decreases |xs|
  {
    if |xs| > 0 {
      var x := xs[|xs| - 1];
      EvaluableAgree(xs[..|xs| - 1]);
      if IsArith(x) {
        ArithFacts(x);
      } else if IsOperator(x) {
        OperatorsAreNotOperands(x);
      }
    }
  }

  /**
   * A postfix expression over operands and the four operators becomes one
   * tree that reads back as the list, and instructions that decode to it.
   */
  lemma PostfixBuilds(postfix: seq<string>)
    requires forall k :: 0 <= k < |postfix| ==> IsOperand(postfix[k]) || IsArith(postfix[k])
    requires F.IsPostfixExpression(postfix)
    ensures Build(postfix).Ok? && WellShaped(Build(postfix).value) && PostOrder(Build(postfix).value) == postfix
    ensures DecodeAll(Instructions(postfix)) == postfix
  {
    PostfixTree(postfix);
    PostfixDecodes(postfix);
  }

  lemma PostfixTree(postfix: seq<string>)
    requires forall k :: 0 <= k < |postfix| ==> IsOperand(postfix[k]) || IsArith(postfix[k])
    requires F.IsPostfixExpression(postfix)
    ensures Build(postfix).Ok? && WellShaped(Build(postfix).value) && PostOrder(Build(postfix).value) == postfix
  {
    EvaluableAgree(postfix);
    BuildStackIff(postfix);
    SingleTree(postfix);
  }

  lemma PostfixDecodes(postfix: seq<string>)
    requires forall k :: 0 <= k < |postfix| ==> IsOperand(postfix[k]) || IsArith(postfix[k])
    ensures DecodeAll(Instructions(postfix)) == postfix
  {
    forall k | 0 <= k < |postfix| ensures IsOperand(postfix[k]) || IsSymbol(postfix[k]) {
      if IsArith(postfix[k]) {
        ArithFacts(postfix[k]);
      }
    }
    InstructionsDecode(postfix);
  }

  /** A well-formed infix expression converts into a postfix expression over its operands and operators. */
  lemma ConvertWellFormed(ts: seq<Token>)
    requires AllWellFormed(ts) && Plain(ts) && F.WellFormedInfix(PF.TranslateAll(ts))
    ensures P.Parse(ts).Ok? && Convert(TokenValues(ts)) == Ok(P.Parse(ts).value)
    ensures var postfix := P.Parse(ts).value;
      F.IsPostfixExpression(postfix) &&
      forall k :: 0 <= k < |postfix| ==> IsOperand(postfix[k]) || IsArith(postfix[k])
  {
    ConvertAgrees(ts);
    PF.ParseWellFormedInfix(ts);
    PF.ParseOkIff(ts);
    var postfix := P.Parse(ts).value;
    EmittedEntries(ts);
    forall k | 0 <= k < |postfix| ensures IsOperand(postfix[k]) || IsArith(postfix[k]) {
      assert postfix[k] in multiset(postfix);
    }
  }

  /**
   * A well-formed infix expression without `=` and `^` compiles: the
   * postfix list is what compiler/parser.py produces for the same tokens,
   * a stack evaluator reduces it to one value, the syntax tree reads back
   * as that list, and the instructions decode to it.
   */
  lemma CompileWellFormed(s: string)
    requires Lex(s).Ok? && Plain(Lex(s).value) && F.WellFormedInfix(PF.TranslateAll(Lex(s).value))
    ensures Compile(s).Ok?
    ensures var c := Compile(s).value;
      c.tokens == TokenValues(Lex(s).value) &&
      P.Parse(Lex(s).value) == Ok(c.postfix) && F.IsPostfixExpression(c.postfix) &&
      WellShaped(c.ast) && PostOrder(c.ast) == c.postfix &&
      DecodeAll(c.instructions) == c.postfix
  {
    var ts := Lex(s).value;
    LexWellFormed(s);
    LexedValidate(ts);
    ConvertWellFormed(ts);
    PostfixBuilds(P.Parse(ts).value);
  }

  /** The ways `compile_code` fails on input that lexes. */
  lemma CompileErrors(s: string)
    requires Lex(s).Ok?
    ensures (exists i :: 0 <= i < |Lex(s).value| && Lex(s).value[i].value == "^") ==>
      Compile(s) == Err(InvalidToken("^"))
    ensures Plain(Lex(s).value) && !PF.Closes(Lex(s).value, 0) ==>
      Compile(s) == Err(ConversionFailed(PopFromEmptyList))
  {
    var ts := Lex(s).value;
    LexWellFormed(s);
    LexedValidate(ts);
    if Plain(ts) {
      ConvertAgrees(ts);
    }
  }

  // ---------------------------------------------------------------------
  // Assignments
  // ---------------------------------------------------------------------

  /** A state with `=` underneath its stack. */
  function Lift(st: State): State { State(st.output, ["="] + st.stack) }

  /** An operator ranked above `=` never pops it. */
  lemma {:induction false} PopLowerBottom(t: string, st: State)
    requires Rank(t) >= 1
    ensures PopLower(t, Lift(st)) == Lift(PopLower(t, st))
    decreases |st.stack|
  {
    var n := |st.stack|;
    if n > 0 {
      assert Lift(st).stack[n] == st.stack[n - 1] && Lift(st).stack[..n] == ["="] + st.stack[..n - 1];
      if st.stack[n - 1] != "(" && Rank(t) <= Rank(st.stack[n - 1]) {
        PopLowerBottom(t, State(st.output + [st.stack[n - 1]], st.stack[..n - 1]));
      }
    }
  }

  /** A `)` stops at its `(` above the `=`; without one it pops the `=` too. */
  lemma {:induction false} PopToOpenBottom(st: State)
    ensures PopToOpen(Lift(st)) ==
      if |PopToOpen(st).stack| > 0 then Lift(PopToOpen(st))
      else State(PopToOpen(st).output + ["="], [])
    decreases |st.stack|
  {
    var n := |st.stack|;
    if n > 0 {
      assert Lift(st).stack[n] == st.stack[n - 1] && Lift(st).stack[..n] == ["="] + st.stack[..n - 1];
      if st.stack[n - 1] != "(" {
        PopToOpenBottom(State(st.output + [st.stack[n - 1]], st.stack[..n - 1]));
      }
    } else {
      assert PopToOpen(Lift(st)) == PopToOpen(State(st.output + ["="], []));
    }
  }

  lemma {:induction false} FlushBottom(st: State)
    ensures Flush(Lift(st)) == Flush(st) + ["="]
    decreases |st.stack|
  {
    var n := |st.stack|;
    if n > 0 {
      assert Lift(st).stack[n] == st.stack[n - 1] && Lift(st).stack[..n] == ["="] + st.stack[..n - 1];
      FlushBottom(State(st.output + [st.stack[n - 1]], st.stack[..n - 1]));
    } else {
      assert Flush(Lift(st)) == Flush(State(st.output + ["="], []));
    }
  }

  lemma StepBottom(st: State, t: string)
    requires t != "="
    ensures Step(Lift(st), t) ==
      match Step(st, t)
      case Ok(r) => Ok(Lift(r))
      case Err(e) => Err(e)
  {
    if IsOperand(t) {
    } else if InTable(t) {
      PopLowerBottom(t, st);
      var p := PopLower(t, st);
      assert ["="] + p.stack + [t] == ["="] + (p.stack + [t]);
    } else if t == "(" {
      assert ["="] + st.stack + [t] == ["="] + (st.stack + [t]);
    } else if t == ")" {
      var p := PopToOpen(st);
      PopToOpenBottom(st);
      if |p.stack| > 0 {
        var n := |p.stack|;
        assert Lift(p).stack[n] == p.stack[n - 1] && Lift(p).stack[..n] == ["="] + p.stack[..n - 1];
      }
    }
  }

  /** With `=` at the bottom of the stack the rest of the conversion is unchanged, and `=` comes out last. */
  lemma {:induction false} RunBottom(ts: seq<string>, st: State)
    requires forall k :: 0 <= k < |ts| ==> ts[k] != "="
    ensures Run(ts, Lift(st)) ==
      match Run(ts, st)
      case Ok(r) => Ok(r + ["="])
      case Err(e) => Err(e)
    decreases |ts|
  {
    if ts == [] {
      FlushBottom(st);
    } else {
      StepBottom(st, ts[0]);
      if Step(st, ts[0]).Ok? {
        RunBottom(ts[1..], Step(st, ts[0]).value);
      }
    }
  }

  /** What is already on the output never influences the rest of the conversion. */
  lemma {:induction false} PopLowerPrefix(t: string, o: seq<string>, st: State)
    ensures PopLower(t, State(o + st.output, st.stack)) ==
      State(o + PopLower(t, st).output, PopLower(t, st).stack)
    decreases |st.stack|
  {
    var n := |st.stack|;
    if n > 0 && st.stack[n - 1] != "(" && Rank(t) <= Rank(st.stack[n - 1]) {
      assert o + st.output + [st.stack[n - 1]] == o + (st.output + [st.stack[n - 1]]);
      PopLowerPrefix(t, o, State(st.output + [st.stack[n - 1]], st.stack[..n - 1]));
    }
  }

  lemma {:induction false} PopToOpenPrefix(o: seq<string>, st: State)
    ensures PopToOpen(State(o + st.output, st.stack)) ==
      State(o + PopToOpen(st).output, PopToOpen(st).stack)
    decreases |st.stack|
  {
    var n := |st.stack|;
    if n > 0 && st.stack[n - 1] != "(" {
      assert o + st.output + [st.stack[n - 1]] == o + (st.output + [st.stack[n - 1]]);
      PopToOpenPrefix(o, State(st.output + [st.stack[n - 1]], st.stack[..n - 1]));
    }
  }

  lemma {:induction false} FlushPrefix(o: seq<string>, st: State)
    ensures Flush(State(o + st.output, st.stack)) == o + Flush(st)
    decreases |st.stack|
  {
    var n := |st.stack|;
    if n > 0 {
      assert o + st.output + [st.stack[n - 1]] == o + (st.output + [st.stack[n - 1]]);
      FlushPrefix(o, State(st.output + [st.stack[n - 1]], st.stack[..n - 1]));
    }
  }

  lemma StepPrefix(o: seq<string>, st: State, t: string)
    ensures Step(State(o + st.output, st.stack), t) ==
      match Step(st, t)
      case Ok(r) => Ok(State(o + r.output, r.stack))
      case Err(e) => Err(e)
  {
    if IsOperand(t) {
      assert o + st.output + [t] == o + (st.output + [t]);
    } else if InTable(t) {
      PopLowerPrefix(t, o, st);
    } else if t == ")" {
      PopToOpenPrefix(o, st);
    }
  }

  lemma {:induction false} RunPrefix(ts: seq<string>, o: seq<string>, st: State)
    ensures Run(ts, State(o + st.output, st.stack)) == PrependAll(o, Run(ts, st))
    decreases |ts|
  {
    if ts == [] {
      FlushPrefix(o, st);
    } else {
      StepPrefix(o, st, ts[0]);
      if Step(st, ts[0]).Ok? {
        RunPrefix(ts[1..], o, Step(st, ts[0]).value);
      }
    }
  }

  /**
   * `x = e`: with `=` at precedence 0 below every operator, the target comes
   * first, then the conversion of `e` on its own, and `=` last.
   */
  lemma Assignment(x: string, e: seq<string>)
    requires IsOperand(x) && forall k :: 0 <= k < |e| ==> e[k] != "="
    ensures Convert([x, "="] + e) ==
      match Convert(e)
      case Ok(r) => Ok([x] + r + ["="])
      case Err(err) => Err(err)
  {
    var ts := [x, "="] + e;
    var none: seq<string> := [];
    assert ts[0..] == ts && ts[2..] == e;
    assert Step(State([], []), ts[0]) == Ok(State([x], [])) by { assert none + [x] == [x]; }
    RunFirst(ts, 0, State([], []));
    assert Step(State([x], []), ts[1]) == Ok(Lift(State([x], []))) by {
      assert !IsOperand("=") by { SymbolIsNoOperand('='); assert "=" == ['=']; }
      assert none + ["="] == ["="] + none;
    }
    RunFirst(ts, 1, State([x], []));
    RunBottom(e, State([x], []));
    RunPrefix(e, [x], State([], []));
    assert [x] + none == [x];
  }

  /** The tree of an assignment: `=` at the root, the target on the left, the expression on the right. */
  lemma AssignmentTree(x: string, n: Node)
    requires IsOperand(x) && WellShaped(n)
    ensures Build([x] + PostOrder(n) + ["="]) == Ok(Bin("=", Leaf(x), n))
  {
    assert !IsOperand("=") by { SymbolIsNoOperand('='); assert "=" == ['=']; }
    BuildPostOrder(Bin("=", Leaf(x), n));
  }

  /** The tokens of `x = e` as the lexer produces them. */
  lemma AssignmentTokens(x: string, e: seq<Token>)
    requires AllWellFormed([Token(ID, x), Token(ASSIGN, "=")] + e) && Plain(e)
    ensures IsIdentifier(x) && AllWellFormed(e)
    ensures TokenValues([Token(ID, x), Token(ASSIGN, "=")] + e) == [x, "="] + TokenValues(e)
    ensures forall k :: 0 <= k < |e| ==> TokenValues(e)[k] != "="
    ensures Validate(TokenValues([Token(ID, x), Token(ASSIGN, "=")] + e)).Ok?
  {
    var ts := [Token(ID, x), Token(ASSIGN, "=")] + e;
    assert WellFormed(ts[0]) && WellFormed(ts[1]);
    assert AllWellFormed(e) by {
      forall i | 0 <= i < |e| ensures WellFormed(e[i]) { assert e[i] == ts[i + 2]; }
    }
    forall i | 0 <= i < |ts| ensures ts[i].value != "^" {
      if i >= 2 { assert ts[i] == e[i - 2]; }
    }
    LexedValidate(ts);
    assert TokenValues(ts) == [x, "="] + TokenValues(e);
    forall k | 0 <= k < |e| ensures TokenValues(e)[k] != "=" {
      assert WellFormed(e[k]) && e[k].kind != ASSIGN;
      if e[k].kind == OP { assert e[k].value[0] != '='; }
    }
  }

  /** An assignment's postfix list holds operands and symbols only, when its right-hand side's does. */
  lemma AssignmentEntries(x: string, r: seq<string>)
    requires IsOperand(x) && forall k :: 0 <= k < |r| ==> IsOperand(r[k]) || IsArith(r[k])
    ensures forall k :: 0 <= k < |[x] + r + ["="]| ==> IsOperand(([x] + r + ["="])[k]) || IsSymbol(([x] + r + ["="])[k])
  {
    var postfix := [x] + r + ["="];
    forall k | 0 <= k < |postfix| ensures IsOperand(postfix[k]) || IsSymbol(postfix[k]) {
      if 0 < k < |postfix| - 1 {
        assert postfix[k] == r[k - 1];
        if IsArith(r[k - 1]) { ArithFacts(r[k - 1]); }
      }
    }
  }

  /**
   * `x = e` with `e` a well-formed expression without `=` and `^` compiles
   * into the postfix list `x`, the postfix list of `e`, `=`, and the tree
   * with `=` at its root, `x` on its left and the tree of `e` on its right.
   */
  lemma CompileAssignment(s: string, x: string, e: seq<Token>)
    requires Lex(s) == Ok([Token(ID, x), Token(ASSIGN, "=")] + e)
    requires Plain(e) && F.WellFormedInfix(PF.TranslateAll(e))
    ensures Compile(s).Ok?
    ensures var c := Compile(s).value;
      P.Parse(e).Ok? && c.postfix == [x] + P.Parse(e).value + ["="] &&
      c.ast.Bin? && c.ast.value == "=" && c.ast.left == Leaf(x) && WellShaped(c.ast.right) &&
      PostOrder(c.ast.right) == P.Parse(e).value &&
      DecodeAll(c.instructions) == c.postfix
  {
    LexWellFormed(s);
    AssignmentTokens(x, e);
    ConvertWellFormed(e);
    var r := P.Parse(e).value;
    PostfixBuilds(r);
    Assignment(x, TokenValues(e));
    AssignmentTree(x, Build(r).value);
    AssignmentEntries(x, r);
    InstructionsDecode([x] + r + ["="]);
  }

  /** `3 + 4 * 2` becomes `3 4 2 * +`, as in compiler/parser.py. */
  lemma TimesBindsTighter(vs: seq<string>)
    requires vs == ["3", "+", "4", "*", "2"]
    ensures Convert(vs) == Ok(["3", "4", "2", "*", "+"])
  {
    var e := [Token(NUMBER, "3"), Token(OP, "+"), Token(NUMBER, "4"), Token(OP, "*"), Token(NUMBER, "2")];
    assert TokenValues(e) == vs;
    assert AllWellFormed(e) && Plain(e) by {
      assert IsDigits("3") && IsDigits("4") && IsDigits("2");
      forall i | 0 <= i < |e| ensures WellFormed(e[i]) && e[i].kind != ASSIGN && e[i].value != "^" {
      }
    }
    PF.TimesBindsTighter();
    PF.ParseOkIff(e);
    ConvertAgrees(e);
  }

  /** `x = 3 + 4 * 2` becomes `x 3 4 2 * + =`. */
  lemma AssignmentExample(vs: seq<string>)
    requires vs == ["x", "=", "3", "+", "4", "*", "2"]
    ensures Convert(vs) == Ok(["x", "3", "4", "2", "*", "+", "="])
  {
    var ev := vs[2..];
    var r := ["3", "4", "2", "*", "+"];
    TimesBindsTighter(ev);
    assert IsOperand("x") by { assert IsIdentStart("x"[0]); }
    assert forall k :: 0 <= k < |ev| ==> ev[k] != "=";
    Assignment("x", ev);
    assert ["x", "="] + ev == vs;
    assert ["x"] + r + ["="] == ["x", "3", "4", "2", "*", "+", "="];
  }

  /** A `)` with no `(` fails on `stack.pop()`; an unmatched `(` is flushed to the output. */
  lemma ParenthesisCases()
    ensures Convert([")"]) == Err(PopFromEmptyList)
    ensures Convert(["(", "1"]) == Ok(["1", "("])
  {
    var none: seq<string> := [];
    assert !IsOperand(")") && !InTable(")") by { SymbolIsNoOperand(')'); assert ")" == [')']; }
    assert !IsOperand("(") && !InTable("(") by { SymbolIsNoOperand('('); assert "(" == ['(']; }
    assert IsOperand("1") by { assert IsDigit("1"[0]); }
    var ts := ["(", "1"];
    assert ts[0..] == ts && ts[2..] == [];
    assert Step(State([], []), "(") == Ok(State([], ["("])) by { assert none + ["("] == ["("]; }
    RunFirst(ts, 0, State([], []));
    assert Step(State([], ["("]), "1") == Ok(State(["1"], ["("])) by { assert none + ["1"] == ["1"]; }
    RunFirst(ts, 1, State([], ["("]));
    assert Flush(State(["1"], ["("])) == Flush(State(["1", "("], [])) by { assert ["1"] + ["("] == ["1", "("]; }
  }
}
