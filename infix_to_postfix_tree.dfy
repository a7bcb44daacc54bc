/**
 * What the conversion of compiler/infix_to_postfix.py computes on a
 * well-formed infix expression, stated against an independent reference:
 * a syntax tree grouped by the precedence and associativity tables. The
 * postfix list the conversion outputs is exactly the post-order reading of
 * that tree, which exists for every well-formed expression and is unique.
 */
module InfixToPostfixTree {
  import opened Results
  import Text
  import opened Operators
  import opened InfixToPostfix
  import F = InfixToPostfixFacts
  import Ast

  // ---------------------------------------------------------------------
  // Reference syntax
  // ---------------------------------------------------------------------

  /** A number, an expression between a `(` and a `)` token, or an operator applied to two terms. */
  datatype Term = Num(value: string) | Group(open: string, body: Term, close: string) | Apply(op: string, left: Term, right: Term)

  /** The tokens a term is written with. */
  function Spelling(t: Term): (ts: seq<Token>)
    decreases t
  {
    match t
    case Num(v) => [Token(NUMBER, v)]
    case Group(o, b, c) => [Token(LPAREN, o)] + Spelling(b) + [Token(RPAREN, c)]
    case Apply(o, l, r) => Spelling(l) + [Token(OPERATOR, o)] + Spelling(r)
  }

  /** The operators of a term outside its parentheses, left to right. */
  function Exposed(t: Term): seq<string>
    decreases t
  {
    match t
    case Apply(o, l, r) => Exposed(l) + [o] + Exposed(r)
    case _ => []
  }

  /**
   * Grouped by the tables: each operator applies after every operator
   * written to its left that it pops, and before every operator written to
   * its right, which does not pop it. So `+` and `-` group `a - b + c` as
   * `(a - b) + c`, `^` groups `a ^ b ^ c` as `a ^ (b ^ c)`, and `*` applies
   * before `+` on either side.
   */
  predicate Grouped(t: Term)
    decreases t
  {
    match t
    case Num(_) => true
    case Group(_, b, _) => Grouped(b)
    case Apply(o, l, r) =>
      IsOperator(o) && Grouped(l) && Grouped(r) &&
      (forall x :: x in Exposed(l) ==> IsOperator(x) && PopsBefore(o, x)) &&
      (forall x :: x in Exposed(r) ==> IsOperator(x) && !PopsBefore(x, o))
  }

  /** The syntax tree of a term: parentheses leave no node of their own. */
  function Tree(t: Term): Ast.Node
    decreases t
  {
    match t
    case Num(v) => Ast.Leaf(v)
    case Group(_, b, _) => Tree(b)
    case Apply(o, l, r) => Ast.Bin(o, Tree(l), Tree(r))
  }

  lemma {:induction false} GroupedKnown(t: Term)
    requires Grouped(t)
    ensures OperatorsKnown(Spelling(t))
    ensures forall x :: x in Exposed(t) ==> IsOperator(x)
    decreases t
  {
    match t
    case Num(_) =>
    case Group(o, b, c) =>
      GroupedKnown(b);
    case Apply(o, l, r) =>
      GroupedKnown(l);
      GroupedKnown(r);
  }

  // ---------------------------------------------------------------------
  // The conversion loop read token by token
  // ---------------------------------------------------------------------

  lemma AppendAssoc<T>(a: seq<T>, b: seq<T>, c: seq<T>)
    ensures a + b + c == a + (b + c)
  {
  }

  lemma {:induction false} ReversedCons<T>(x: T, s: seq<T>)
    ensures Text.Reversed([x] + s) == Text.Reversed(s) + [x]
    decreases |s|
  {
    if |s| > 0 {
      var t := [x] + s;
      assert t[..|t| - 1] == [x] + s[..|s| - 1];
      ReversedCons(x, s[..|s| - 1]);
    } else {
      assert Text.Reversed([x][..0]) == [];
    }
  }

  /** The `for` loop over `ts` from state `st`, without the final flush. */
  function Steps(ts: seq<Token>, st: State): (r: Result<State, SyntaxError>)
    requires OperatorsKnown(ts) && StackOk(st.stack)
    ensures r.Ok? ==> StackOk(r.value.stack)
    decreases |ts|
  {
    if ts == [] then Ok(st)
    else
      match Step(st, ts[0])
      case Err(e) => Err(e)
      case Ok(st') => Steps(ts[1..], st')
  }

  lemma {:induction false} StepsAppend(a: seq<Token>, b: seq<Token>, st: State)
    requires OperatorsKnown(a) && OperatorsKnown(b) && StackOk(st.stack) && Steps(a, st).Ok?
    ensures OperatorsKnown(a + b) && Steps(a + b, st) == Steps(b, Steps(a, st).value)
    decreases |a|
  {
    if a != [] {
      assert (a + b)[0] == a[0] && (a + b)[1..] == a[1..] + b;
      StepsAppend(a[1..], b, Step(st, a[0]).value);
    } else {
      assert a + b == b;
    }
  }

  /** The whole conversion: the loop, then the flush. */
  lemma {:induction false} RunSteps(ts: seq<Token>, st: State)
    requires OperatorsKnown(ts) && StackOk(st.stack) && Steps(ts, st).Ok?
    ensures Run(ts, st) == Flush(Steps(ts, st).value)
    decreases |ts|
  {
    if ts != [] {
      RunSteps(ts[1..], Step(st, ts[0]).value);
    }
  }

  /** Operators `vs` as stack entries, bottom first. */
  function OperatorTokens(vs: seq<string>): (r: seq<Token>)
    ensures |r| == |vs| && forall i :: 0 <= i < |vs| ==> r[i] == Token(OPERATOR, vs[i])
  {
    seq(|vs|, i requires 0 <= i < |vs| => Token(OPERATOR, vs[i]))
  }

  lemma OperatorTokensCons(v: string, vs: seq<string>)
    ensures OperatorTokens([v] + vs) == [Token(OPERATOR, v)] + OperatorTokens(vs)
  {
    assert OperatorTokens([v] + vs)[1..] == OperatorTokens(vs);
  }

  /** Nothing on top of `stack` that the incoming `op` would pop. */
  predicate Guarded(op: string, stack: seq<Token>)
    requires IsOperator(op) && StackOk(stack)
  {
    |stack| == 0 || Top(stack).kind == LPAREN || !PopsBefore(op, Top(stack).value)
  }

  /** An incoming operator pops exactly the operators stacked above a guarded stack, when it pops each of them. */
  lemma {:induction false} PopSpine(op: string, w: seq<string>, stack: seq<Token>, vs: seq<string>)
    requires IsOperator(op) && StackOk(stack) && Guarded(op, stack)
    requires forall j :: 0 <= j < |vs| ==> IsOperator(vs[j]) && PopsBefore(op, vs[j])
    ensures StackOk(stack + OperatorTokens(vs))
    ensures PopOperators(op, State(w, stack + OperatorTokens(vs))) == State(w + Text.Reversed(vs), stack)
    decreases |vs|
  {
    var full := stack + OperatorTokens(vs);
    if vs == [] {
      assert full == stack;
    } else {
      var n := |vs| - 1;
      assert Top(full) == Token(OPERATOR, vs[n]);
      assert Pop(full) == stack + OperatorTokens(vs[..n]);
      PopSpine(op, w + [vs[n]], stack, vs[..n]);
      assert w + [vs[n]] + Text.Reversed(vs[..n]) == w + Text.Reversed(vs);
    }
  }

  /** A `)` pops exactly the operators stacked above its `(`. */
  lemma {:induction false} PopSpineToParen(w: seq<string>, stack: seq<Token>, vs: seq<string>)
    requires StackOk(stack) && |stack| > 0 && Top(stack).kind == LPAREN
    requires forall j :: 0 <= j < |vs| ==> IsOperator(vs[j])
    ensures StackOk(stack + OperatorTokens(vs))
    ensures PopToLParen(State(w, stack + OperatorTokens(vs))) == State(w + Text.Reversed(vs), stack)
    decreases |vs|
  {
    var full := stack + OperatorTokens(vs);
    if vs == [] {
      assert full == stack;
    } else {
      var n := |vs| - 1;
      assert Top(full) == Token(OPERATOR, vs[n]);
      assert Pop(full) == stack + OperatorTokens(vs[..n]);
      PopSpineToParen(w + [vs[n]], stack, vs[..n]);
      assert w + [vs[n]] + Text.Reversed(vs[..n]) == w + Text.Reversed(vs);
    }
  }

  /** The final loop empties a stack of operators only. */
  lemma {:induction false} FlushSpine(w: seq<string>, vs: seq<string>)
    ensures Flush(State(w, OperatorTokens(vs))) == Ok(w + Text.Reversed(vs))
    decreases |vs|
  {
    if vs != [] {
      var n := |vs| - 1;
      assert Pop(OperatorTokens(vs)) == OperatorTokens(vs[..n]);
      assert Top(OperatorTokens(vs)) == Token(OPERATOR, vs[n]);
      FlushSpine(w + [vs[n]], vs[..n]);
      assert w + [vs[n]] + Text.Reversed(vs[..n]) == w + Text.Reversed(vs);
    } else {
      assert w + Text.Reversed(vs) == w;
    }
  }

  /** An incoming operator that pops the spine above a guarded stack, then is pushed itself. */
  lemma OperatorAfterSpine(op: string, w: seq<string>, stack: seq<Token>, vs: seq<string>)
    requires IsOperator(op) && StackOk(stack) && Guarded(op, stack)
    requires forall j :: 0 <= j < |vs| ==> IsOperator(vs[j]) && PopsBefore(op, vs[j])
    ensures StackOk(stack + OperatorTokens(vs))
    ensures Steps([Token(OPERATOR, op)], State(w, stack + OperatorTokens(vs))) ==
      Ok(State(w + Text.Reversed(vs), stack + [Token(OPERATOR, op)]))
  {
    PopSpine(op, w, stack, vs);
    assert [Token(OPERATOR, op)][1..] == [];
  }

  /** A `)` that pops the spine above its `(` and then the `(` itself. */
  lemma CloseAfterSpine(o: string, c: string, w: seq<string>, stack: seq<Token>, vs: seq<string>)
    requires StackOk(stack) && forall j :: 0 <= j < |vs| ==> IsOperator(vs[j])
    ensures StackOk(stack + [Token(LPAREN, o)]) && StackOk(stack + [Token(LPAREN, o)] + OperatorTokens(vs))
    ensures Steps([Token(RPAREN, c)], State(w, stack + [Token(LPAREN, o)] + OperatorTokens(vs))) ==
      Ok(State(w + Text.Reversed(vs), stack))
  {
    var inside := stack + [Token(LPAREN, o)];
    var st := State(w, inside + OperatorTokens(vs));
    PopSpineToParen(w, inside, vs);
    assert Top(inside) == Token(LPAREN, o) && Pop(inside) == stack;
    assert Step(st, Token(RPAREN, c)) == Ok(State(w + Text.Reversed(vs), stack));
    assert [Token(RPAREN, c)][0] == Token(RPAREN, c) && [Token(RPAREN, c)][1..] == [];
  }

  lemma OpenGroup(o: string, ts: seq<Token>, out: seq<string>, stack: seq<Token>)
    requires OperatorsKnown(ts) && StackOk(stack)
    ensures OperatorsKnown([Token(LPAREN, o)] + ts) && StackOk(stack + [Token(LPAREN, o)])
    ensures Steps([Token(LPAREN, o)] + ts, State(out, stack)) == Steps(ts, State(out, stack + [Token(LPAREN, o)]))
  {
    assert ([Token(LPAREN, o)] + ts)[1..] == ts;
  }

  /** A group read in three parts: the `(`, what is between, the `)`. */
  lemma GroupStepsFrom(o: string, inner: seq<Token>, c: string, out: seq<string>, stack: seq<Token>, mid: State, last: State)
    requires OperatorsKnown(inner) && StackOk(stack) && StackOk(mid.stack)
    requires Steps(inner, State(out, stack + [Token(LPAREN, o)])) == Ok(mid)
    requires Steps([Token(RPAREN, c)], mid) == Ok(last)
    ensures OperatorsKnown([Token(LPAREN, o)] + inner + [Token(RPAREN, c)])
    ensures Steps([Token(LPAREN, o)] + inner + [Token(RPAREN, c)], State(out, stack)) == Ok(last)
  {
    var rp := Token(RPAREN, c);
    assert [Token(LPAREN, o)] + inner + [rp] == [Token(LPAREN, o)] + (inner + [rp]);
    OpenGroup(o, inner + [rp], out, stack);
    StepsAppend(inner, [rp], State(out, stack + [Token(LPAREN, o)]));
  }

  /** The two parts of a chain around its operator applied last, read one after the other. */
  lemma StepsJoin(left: seq<Token>, op: string, right: seq<Token>, out: seq<string>, stack: seq<Token>,
                  lt: seq<string>, rest: seq<string>, sp: seq<string>)
    requires OperatorsKnown(left + [Token(OPERATOR, op)]) && OperatorsKnown(right) && StackOk(stack)
    requires IsOperator(op) && forall j :: 0 <= j < |sp| ==> IsOperator(sp[j])
    requires Steps(left + [Token(OPERATOR, op)], State(out, stack)) == Ok(State(out + lt, stack + [Token(OPERATOR, op)]))
    requires Steps(right, State(out + lt, stack + [Token(OPERATOR, op)])) ==
      Ok(State(out + lt + rest, stack + [Token(OPERATOR, op)] + OperatorTokens(sp)))
    ensures OperatorsKnown(left + [Token(OPERATOR, op)] + right)
    ensures Steps(left + [Token(OPERATOR, op)] + right, State(out, stack)) ==
      Ok(State(out + (lt + rest), stack + OperatorTokens([op] + sp)))
  {
    StepsAppend(left + [Token(OPERATOR, op)], right, State(out, stack));
    OperatorTokensCons(op, sp);
    AppendAssoc(out, lt, rest);
    AppendAssoc(stack, [Token(OPERATOR, op)], OperatorTokens(sp));
  }


  // ---------------------------------------------------------------------
  // Reading a grouped term
  // ---------------------------------------------------------------------

  /**
   * A term read as far as its last token: the operators still waiting on
   * the stack (its right spine, outermost first) ...
   */
  function Spine(t: Term): (sp: seq<string>)
    ensures forall x :: x in sp ==> x in Exposed(t)
    decreases t
  {
    match t
    case Apply(o, _, r) => [o] + Spine(r)
    case _ => []
  }

  /** ... and what has gone to the output already: everything else, in post-order. */
  function Settled(t: Term): seq<string>
    decreases t
  {
    match t
    case Apply(_, l, r) => Ast.PostOrder(Tree(l)) + Settled(r)
    case _ => Ast.PostOrder(Tree(t))
  }

  /** Emptying the spine onto the settled part completes the post-order reading. */
  lemma {:induction false} SettledSpine(t: Term)
    ensures Settled(t) + Text.Reversed(Spine(t)) == Ast.PostOrder(Tree(t))
    decreases t
  {
    match t
    case Apply(o, l, r) =>
      var left := Ast.PostOrder(Tree(l));
      SettledSpine(r);
      ReversedCons(o, Spine(r));
      AppendAssoc(left, Settled(r), Text.Reversed(Spine(r)));
      AppendAssoc(left + Settled(r), Text.Reversed(Spine(r)), [o]);
    case _ =>
      assert Text.Reversed(Spine(t)) == [];
  }

  /**
   * The loop reads a whole grouped term from a stack none of its exposed
   * operators pops from: the settled part goes to the output and the spine
   * onto the stack.
   */
  lemma {:induction false} TermSteps(t: Term, out: seq<string>, stack: seq<Token>)
    requires Grouped(t) && StackOk(stack)
    requires forall x :: x in Exposed(t) ==> IsOperator(x) && Guarded(x, stack)
    ensures OperatorsKnown(Spelling(t))
    ensures Steps(Spelling(t), State(out, stack)) == Ok(State(out + Settled(t), stack + OperatorTokens(Spine(t))))
    decreases t, 2
  {
    GroupedKnown(t);
    match t
    case Num(v) =>
      assert Spelling(t)[1..] == [];
      assert stack + OperatorTokens([]) == stack;
    case Group(o, b, c) =>
      GroupSteps(o, b, c, out, stack);
      assert stack + OperatorTokens([]) == stack;
    case Apply(o, l, r) =>
      ApplySteps(o, l, r, out, stack);
  }

  /** A group leaves the post-order reading of its body on the output and the stack as it was. */
  lemma {:induction false} GroupSteps(o: string, b: Term, c: string, out: seq<string>, stack: seq<Token>)
    requires Grouped(b) && StackOk(stack)
    ensures OperatorsKnown(Spelling(b))
    ensures Steps([Token(LPAREN, o)] + Spelling(b) + [Token(RPAREN, c)], State(out, stack)) ==
      Ok(State(out + Ast.PostOrder(Tree(b)), stack))
    decreases b, 3
  {
    var inside := stack + [Token(LPAREN, o)];
    var done := out + Settled(b);
    GroupedKnown(b);
    TermSteps(b, out, inside);
    CloseAfterSpine(o, c, done, stack, Spine(b));
    GroupStepsFrom(o, Spelling(b), c, out, stack, State(done, inside + OperatorTokens(Spine(b))),
      State(done + Text.Reversed(Spine(b)), stack));
    SettledSpine(b);
    AppendAssoc(out, Settled(b), Text.Reversed(Spine(b)));
  }

  lemma {:induction false} ApplySteps(o: string, l: Term, r: Term, out: seq<string>, stack: seq<Token>)
    requires Grouped(Apply(o, l, r)) && StackOk(stack)
    requires forall x :: x in Exposed(Apply(o, l, r)) ==> IsOperator(x) && Guarded(x, stack)
    ensures OperatorsKnown(Spelling(Apply(o, l, r)))
    ensures Steps(Spelling(Apply(o, l, r)), State(out, stack)) ==
      Ok(State(out + Settled(Apply(o, l, r)), stack + OperatorTokens(Spine(Apply(o, l, r)))))
    decreases Apply(o, l, r), 1
  {
    ApplyLeftSteps(o, l, r, out, stack);
    ApplyRightSteps(o, l, r, out, stack);
    GroupedKnown(r);
    StepsJoin(Spelling(l), o, Spelling(r), out, stack, Ast.PostOrder(Tree(l)), Settled(r), Spine(r));
  }

  /** The left operand and the operator: the operator pops the left operand's spine and waits on the stack. */
  lemma {:induction false} ApplyLeftSteps(o: string, l: Term, r: Term, out: seq<string>, stack: seq<Token>)
    requires Grouped(Apply(o, l, r)) && StackOk(stack)
    requires forall x :: x in Exposed(Apply(o, l, r)) ==> IsOperator(x) && Guarded(x, stack)
    ensures OperatorsKnown(Spelling(l) + [Token(OPERATOR, o)])
    ensures Steps(Spelling(l) + [Token(OPERATOR, o)], State(out, stack)) ==
      Ok(State(out + Ast.PostOrder(Tree(l)), stack + [Token(OPERATOR, o)]))
    decreases Apply(o, l, r), 0
  {
    assert o in Exposed(Apply(o, l, r));
    TermSteps(l, out, stack);
    var sp := Spine(l);
    forall j | 0 <= j < |sp| ensures IsOperator(sp[j]) && PopsBefore(o, sp[j]) {
      assert sp[j] in Exposed(l);
    }
    StepsAppend(Spelling(l), [Token(OPERATOR, o)], State(out, stack));
    OperatorAfterSpine(o, out + Settled(l), stack, sp);
    SettledSpine(l);
    AppendAssoc(out, Settled(l), Text.Reversed(sp));
  }

  /** The right operand, read with the operator waiting on the stack, which none of its exposed operators pops. */
  lemma {:induction false} ApplyRightSteps(o: string, l: Term, r: Term, out: seq<string>, stack: seq<Token>)
    requires Grouped(Apply(o, l, r)) && StackOk(stack)
    ensures StackOk(stack + [Token(OPERATOR, o)]) && OperatorsKnown(Spelling(r))
    ensures var done := out + Ast.PostOrder(Tree(l));
      Steps(Spelling(r), State(done, stack + [Token(OPERATOR, o)])) ==
      Ok(State(done + Settled(r), stack + [Token(OPERATOR, o)] + OperatorTokens(Spine(r))))
    decreases Apply(o, l, r), 0
  {
    var pushed := stack + [Token(OPERATOR, o)];
    assert Top(pushed).value == o;
    TermSteps(r, out + Ast.PostOrder(Tree(l)), pushed);
  }

  /**
   * The conversion outputs the post-order reading of every grouped term:
   * the postfix list a stack evaluator reduces in the order the tables
   * prescribe.
   */
  lemma GroupedPostfix(t: Term)
    requires Grouped(t)
    ensures OperatorsKnown(Spelling(t))
    ensures Postfix(Spelling(t)) == Ok(Ast.PostOrder(Tree(t)))
  {
    StepsFromStart(t, [], []);
    PostfixSteps(Spelling(t), State(Settled(t), OperatorTokens(Spine(t))));
    FlushTerm(t);
  }

  /** From the initial state the loop leaves the settled part on the output and the spine on the stack. */
  lemma StepsFromStart(t: Term, out: seq<string>, stack: seq<Token>)
    requires Grouped(t) && out == [] && stack == []
    ensures OperatorsKnown(Spelling(t))
    ensures Steps(Spelling(t), State(out, stack)) == Ok(State(Settled(t), OperatorTokens(Spine(t))))
  {
    TermSteps(t, out, stack);
    assert out + Settled(t) == Settled(t);
    assert stack + OperatorTokens(Spine(t)) == OperatorTokens(Spine(t));
  }

  lemma PostfixSteps(ts: seq<Token>, last: State)
    requires OperatorsKnown(ts) && Steps(ts, State([], [])) == Ok(last)
    ensures Postfix(ts) == Flush(last)
  {
    RunSteps(ts, State([], []));
  }

  /** The final loop empties the spine onto the settled part. */
  lemma FlushTerm(t: Term)
    ensures Flush(State(Settled(t), OperatorTokens(Spine(t)))) == Ok(Ast.PostOrder(Tree(t)))
  {
    FlushSpine(Settled(t), Spine(t));
    SettledSpine(t);
  }

  /** Numbers written as operands, as the lexer makes them. */
  predicate NumbersAreOperands(t: Term)
    decreases t
  {
    match t
    case Num(v) => Text.IsOperand(v)
    case Group(_, b, _) => NumbersAreOperands(b)
    case Apply(_, l, r) => NumbersAreOperands(l) && NumbersAreOperands(r)
  }

  lemma {:induction false} TreeWellShaped(t: Term)
    requires Grouped(t) && NumbersAreOperands(t)
    ensures Ast.WellShaped(Tree(t))
    decreases t
  {
    match t
    case Num(_) =>
    case Group(_, b, _) =>
      TreeWellShaped(b);
    case Apply(o, l, r) =>
      OperatorsAreNotOperands(o);
      TreeWellShaped(l);
      TreeWellShaped(r);
  }

  /** Two grouped terms written with the same tokens have the same tree: the grouping is unique. */
  lemma GroupingIsUnique(t1: Term, t2: Term)
    requires Grouped(t1) && Grouped(t2) && NumbersAreOperands(t1) && NumbersAreOperands(t2)
    requires Spelling(t1) == Spelling(t2)
    ensures Tree(t1) == Tree(t2)
  {
    GroupedPostfix(t1);
    GroupedPostfix(t2);
    TreeWellShaped(t1);
    TreeWellShaped(t2);
    Ast.BuildPostOrder(Tree(t1));
    Ast.BuildPostOrder(Tree(t2));
  }

  // ---------------------------------------------------------------------
  // Every well-formed expression is a grouped term
  // ---------------------------------------------------------------------

  /** `PopsBefore` where either side may be no operator. */
  predicate Pops(op: string, top: string) {
    IsOperator(op) && IsOperator(top) && PopsBefore(op, top)
  }

  /** Adds `o a` after the last token of `t`, going down its right spine past the operators `o` does not pop. */
  function Extend(t: Term, o: string, a: Term): Term
    decreases t
  {
    match t
    case Apply(p, l, r) => if Pops(o, p) then Apply(o, t, a) else Apply(p, l, Extend(r, o, a))
    case _ => Apply(o, t, a)
  }

  lemma PopsTransitive(o: string, p: string, x: string)
    requires IsOperator(o) && IsOperator(p) && IsOperator(x)
    requires PopsBefore(o, p) && PopsBefore(p, x)
    ensures PopsBefore(o, x)
  {
  }

  lemma PopsPast(o: string, p: string, x: string)
    requires IsOperator(o) && IsOperator(p) && IsOperator(x)
    requires PopsBefore(o, p) && !PopsBefore(x, p)
    ensures PopsBefore(o, x)
  {
  }

  lemma {:induction false} ExtendSpelling(t: Term, o: string, a: Term)
    ensures Spelling(Extend(t, o, a)) == Spelling(t) + [Token(OPERATOR, o)] + Spelling(a)
    ensures Exposed(a) == [] ==> Exposed(Extend(t, o, a)) == Exposed(t) + [o]
    decreases t
  {
    match t
    case Apply(p, l, r) =>
      if !Pops(o, p) {
        ExtendSpelling(r, o, a);
        var pt := Spelling(l) + [Token(OPERATOR, p)];
        AppendAssoc(pt, Spelling(r) + [Token(OPERATOR, o)], Spelling(a));
        AppendAssoc(pt, Spelling(r), [Token(OPERATOR, o)]);
        var pe := Exposed(l) + [p];
        AppendAssoc(pe, Exposed(r), [o]);
      }
    case _ =>
  }

  /** Extending a grouped term by an operator and an operand keeps it grouped. */
  lemma {:induction false} ExtendGrouped(t: Term, o: string, a: Term)
    requires Grouped(t) && IsOperator(o) && Grouped(a) && Exposed(a) == []
    ensures Grouped(Extend(t, o, a))
    decreases t
  {
    ExtendSpelling(t, o, a);
    match t
    case Apply(p, l, r) =>
      if Pops(o, p) {
        forall x | x in Exposed(t) ensures IsOperator(x) && PopsBefore(o, x) {
          if x in Exposed(l) {
            PopsTransitive(o, p, x);
          } else if x in Exposed(r) {
            PopsPast(o, p, x);
          }
        }
      } else {
        ExtendGrouped(r, o, a);
        ExtendSpelling(r, o, a);
      }
    case _ =>
  }

  /** An operand: a number, or a `(`, an expression and a `)`; with the tokens after it. */
  function ParseOperand(ts: seq<Token>): (r: Option<(Term, seq<Token>)>)
    ensures r.Some? ==> |r.value.1| < |ts|
    decreases |ts|, 0
  {
    if ts == [] then None
    else if ts[0].kind == NUMBER then Some((Num(ts[0].value), ts[1..]))
    else if ts[0].kind == LPAREN then
      match ParseExpr(ts[1..])
      case None => None
      case Some((e, rest)) =>
        if |rest| > 0 && rest[0].kind == RPAREN then Some((Group(ts[0].value, e, rest[0].value), rest[1..]))
        else None
    else None
  }

  /** Operators, each with the operand after it, added to `t` one by one. */
  function ParseOperators(t: Term, ts: seq<Token>): (r: Option<(Term, seq<Token>)>)
    ensures r.Some? ==> |r.value.1| <= |ts|
    decreases |ts|, 1
  {
    if |ts| > 0 && ts[0].kind == OPERATOR then
      match ParseOperand(ts[1..])
      case None => None
      case Some((a, rest)) => ParseOperators(Extend(t, ts[0].value, a), rest)
    else Some((t, ts))
  }

  function ParseExpr(ts: seq<Token>): (r: Option<(Term, seq<Token>)>)
    ensures r.Some? ==> |r.value.1| < |ts|
    decreases |ts|, 2
  {
    match ParseOperand(ts)
    case None => None
    case Some((a, rest)) => ParseOperators(a, rest)
  }

  /** The term a whole token list spells, if any. */
  function Parse(ts: seq<Token>): Option<Term> {
    match ParseExpr(ts)
    case Some((e, rest)) => if rest == [] then Some(e) else None
    case None => None
  }

  lemma {:induction false} ParseOperandOk(ts: seq<Token>, d: nat)
    requires OperatorsKnown(ts) && F.Infix(ts, true, d)
    ensures ParseOperand(ts).Some?
    ensures var (a, rest) := ParseOperand(ts).value;
      Grouped(a) && Exposed(a) == [] && ts == Spelling(a) + rest && OperatorsKnown(rest) && F.Infix(rest, false, d)
    decreases |ts|, 1
  {
    if ts[0].kind == LPAREN {
      ParseGroupOk(ts, d);
    } else {
      assert ts == [ts[0]] + ts[1..];
    }
  }

  lemma {:induction false} ParseGroupOk(ts: seq<Token>, d: nat)
    requires OperatorsKnown(ts) && F.Infix(ts, true, d) && ts[0].kind == LPAREN
    ensures ParseOperand(ts).Some?
    ensures var (a, rest) := ParseOperand(ts).value;
      Grouped(a) && Exposed(a) == [] && ts == Spelling(a) + rest && OperatorsKnown(rest) && F.Infix(rest, false, d)
    decreases |ts|, 0
  {
    assert F.Infix(ts[1..], true, d + 1);
    ParseExprOk(ts[1..], d + 1);
    var (e, rest) := ParseExpr(ts[1..]).value;
    assert rest != [] && rest[0].kind == RPAREN;
    assert F.Infix(rest[1..], false, d);
    assert rest == [rest[0]] + rest[1..];
    ConcatGroup(ts, Spelling(e), rest);
  }

  /** `ts` is its first token, `s` and `rest`; `rest` is its first token and the tokens after it. */
  lemma ConcatGroup(ts: seq<Token>, s: seq<Token>, rest: seq<Token>)
    requires |ts| > 0 && |rest| > 0 && ts[1..] == s + rest
    ensures ts == [ts[0]] + s + [rest[0]] + rest[1..]
  {
    assert ts == [ts[0]] + ts[1..];
    assert rest == [rest[0]] + rest[1..];
  }

  lemma {:induction false} ParseOperatorsOk(t: Term, ts: seq<Token>, d: nat)
    requires OperatorsKnown(ts) && Grouped(t) && F.Infix(ts, false, d)
    ensures ParseOperators(t, ts).Some?
    ensures var (u, rest) := ParseOperators(t, ts).value;
      Grouped(u) && Spelling(t) + ts == Spelling(u) + rest && OperatorsKnown(rest) &&
      F.Infix(rest, false, d) && (rest == [] || rest[0].kind == RPAREN)
    decreases |ts|, 2
  {
    if |ts| > 0 && ts[0].kind == OPERATOR {
      var o := ts[0].value;
      assert F.Infix(ts[1..], true, d);
      ParseOperandOk(ts[1..], d);
      var (a, rest) := ParseOperand(ts[1..]).value;
      ExtendGrouped(t, o, a);
      ExtendSpelling(t, o, a);
      ParseOperatorsOk(Extend(t, o, a), rest, d);
      ConcatOperator(Spelling(t), ts, Spelling(a), rest);
    }
  }

  /** Appending `ts`, an operator followed by `s` and `rest`, to `u`. */
  lemma ConcatOperator(u: seq<Token>, ts: seq<Token>, s: seq<Token>, rest: seq<Token>)
    requires |ts| > 0 && ts[1..] == s + rest
    ensures u + ts == u + [ts[0]] + s + rest
  {
    assert ts == [ts[0]] + ts[1..];
  }

  lemma {:induction false} ParseExprOk(ts: seq<Token>, d: nat)
    requires OperatorsKnown(ts) && F.Infix(ts, true, d)
    ensures ParseExpr(ts).Some?
    ensures var (e, rest) := ParseExpr(ts).value;
      Grouped(e) && ts == Spelling(e) + rest && OperatorsKnown(rest) &&
      F.Infix(rest, false, d) && (rest == [] || rest[0].kind == RPAREN)
    decreases |ts|, 3
  {
    ParseOperandOk(ts, d);
    var (a, rest) := ParseOperand(ts).value;
    ParseOperatorsOk(a, rest, d);
  }

  /**
   * A well-formed infix expression is spelled by a grouped term, and the
   * conversion outputs the post-order reading of that term's tree.
   */
  lemma PostfixOfWellFormed(ts: seq<Token>)
    requires OperatorsKnown(ts) && F.WellFormedInfix(ts)
    ensures Parse(ts).Some? && Grouped(Parse(ts).value) && Spelling(Parse(ts).value) == ts
    ensures Postfix(ts) == Ok(Ast.PostOrder(Tree(Parse(ts).value)))
  {
    ParseExprOk(ts, 0);
    var (e, rest) := ParseExpr(ts).value;
    assert rest == [];
    assert ts == Spelling(e);
    GroupedPostfix(e);
  }

  /** Conversely, every term is written as a well-formed infix expression. */
  lemma SpellingIsWellFormed(t: Term)
    ensures F.WellFormedInfix(Spelling(t))
  {
    SpelledInfix(t, [], 0);
    assert Spelling(t) + [] == Spelling(t);
  }

  lemma {:induction false} SpelledInfix(t: Term, rest: seq<Token>, d: nat)
    requires F.Infix(rest, false, d)
    ensures F.Infix(Spelling(t) + rest, true, d)
    decreases t
  {
    match t
    case Num(v) =>
      assert (Spelling(t) + rest)[1..] == rest;
    case Group(o, b, c) =>
      var close := [Token(RPAREN, c)] + rest;
      assert close[1..] == rest;
      SpelledInfix(b, close, d + 1);
      var inner := Spelling(b) + close;
      assert ([Token(LPAREN, o)] + inner)[1..] == inner;
      ConcatThree([Token(LPAREN, o)], Spelling(b), [Token(RPAREN, c)], rest);
    case Apply(o, l, r) =>
      SpelledInfix(r, rest, d);
      var after := [Token(OPERATOR, o)] + (Spelling(r) + rest);
      assert after[1..] == Spelling(r) + rest;
      SpelledInfix(l, after, d);
      ConcatThree(Spelling(l), [Token(OPERATOR, o)], Spelling(r), rest);
  }

  lemma ConcatThree<T>(a: seq<T>, b: seq<T>, c: seq<T>, rest: seq<T>)
    ensures a + b + c + rest == a + (b + (c + rest))
  {
  }
}
