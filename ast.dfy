/**
 * The syntax tree of compiler/app.py: the `ASTNode` record with its
 * `to_dict` view, and `build_ast`, which rebuilds a tree from a postfix
 * list with a stack of nodes.
 */
module Ast {
  import opened Results
  import opened Text

  /**
   * An `ASTNode` as `build_ast` creates it: a leaf for an operand, or a node
   * with both children for anything else.
   */
  datatype Node = Leaf(value: string) | Bin(value: string, left: Node, right: Node)

  /** The dictionary `to_dict` returns: keys "value", "left" and "right", None for a missing child. */
  datatype Dict = Dict(value: string, left: Option<Dict>, right: Option<Dict>)

  /** The two IndexErrors Python raises on its lists: "pop from empty list" and "list index out of range". */
  datatype IndexError = PopFromEmptyList | ListIndexOutOfRange

  /** `node.to_dict()`. */
  function ToDict(n: Node): Dict {
    match n
    case Leaf(v) => Dict(v, None, None)
    case Bin(v, l, r) => Dict(v, Some(ToDict(l)), Some(ToDict(r)))
  }

  /** Reading a dictionary back: no children, or both. */
  function FromDict(d: Dict): Option<Node>
    decreases d
  {
    match (d.left, d.right)
    case (None, None) => Some(Leaf(d.value))
    case (Some(l), Some(r)) =>
      (match (FromDict(l), FromDict(r))
       case (Some(a), Some(b)) => Some(Bin(d.value, a, b))
       case _ => None)
    case _ => None
  }

  /** The postfix list a tree stands for: left subtree, right subtree, then its own value. */
  function PostOrder(n: Node): (p: seq<string>)
    ensures |p| >= 1 && p[|p| - 1] == n.value
  {
    match n
    case Leaf(v) => [v]
    case Bin(v, l, r) => PostOrder(l) + PostOrder(r) + [v]
  }

  /** The trees on a node stack, bottom first, read back as one postfix list. */
  function Flatten(s: seq<Node>): seq<string>
    decreases |s|
  {
    if |s| == 0 then [] else Flatten(s[..|s| - 1]) + PostOrder(s[|s| - 1])
  }

  /** One iteration of the loop: a leaf is pushed for an operand (`token.isdigit() or token.isidentifier()`), or the two top nodes are combined. */
  function Push(s: seq<Node>, t: string): Result<seq<Node>, IndexError> {
    if IsOperand(t) then Ok(s + [Leaf(t)])
    else if |s| < 2 then Err(PopFromEmptyList)
    else Ok(s[..|s| - 2] + [Bin(t, s[|s| - 2], s[|s| - 1])])
  }

  /** The node stack after the tokens of `p`. */
  function BuildStack(p: seq<string>): Result<seq<Node>, IndexError>
    decreases |p|
  {
    if |p| == 0 then Ok([])
    else
      match BuildStack(p[..|p| - 1])
      case Err(e) => Err(e)
      case Ok(s) => Push(s, p[|p| - 1])
  }

  /** `build_ast(postfix_tokens)`: the bottom node of the final stack. */
  function Build(p: seq<string>): Result<Node, IndexError> {
    match BuildStack(p)
    case Err(e) => Err(e)
    case Ok(s) => if |s| == 0 then Err(ListIndexOutOfRange) else Ok(s[0])
  }

  lemma BuildStackLast(p: seq<string>, t: string)
    ensures BuildStack(p + [t]) ==
      match BuildStack(p)
      case Err(e) => Err(e)
      case Ok(s) => Push(s, t)
  {
    assert (p + [t])[..|p|] == p;
  }

  /** Once an operator has found too few nodes, the rest of the list does not matter. */
  lemma {:induction false} ErrorSticks(p: seq<string>, q: seq<string>)
    requires BuildStack(p).Err?
    ensures BuildStack(p + q) == BuildStack(p)
    decreases |q|
  {
    if |q| == 0 {
      assert p + q == p;
    } else {
      ErrorSticks(p, q[..|q| - 1]);
      BuildStackLast(p + q[..|q| - 1], q[|q| - 1]);
      assert p + q[..|q| - 1] + [q[|q| - 1]] == p + q;
    }
  }

  /** `build_ast(postfix_tokens)`, loop for loop. */
  method BuildAst(postfix: seq<string>) returns (r: Result<Node, IndexError>)
    ensures r == Build(postfix)
  {
    var stack: seq<Node> := [];
    for i := 0 to |postfix|
      invariant BuildStack(postfix[..i]) == Ok(stack)
    {
      var token := postfix[i];
      BuildStackLast(postfix[..i], token);
      assert postfix[..i] + [token] == postfix[..i + 1];
      if IsDigits(token) || IsIdentifier(token) {
        stack := stack + [Leaf(token)];
      } else {
        ghost var before := stack;
        if |stack| == 0 {
          ErrorSticks(postfix[..i + 1], postfix[i + 1..]);
          assert postfix[..i + 1] + postfix[i + 1..] == postfix;
          return Err(PopFromEmptyList);
        }
        var right := stack[|stack| - 1];
        stack := stack[..|stack| - 1];
        if |stack| == 0 {
          ErrorSticks(postfix[..i + 1], postfix[i + 1..]);
          assert postfix[..i + 1] + postfix[i + 1..] == postfix;
          return Err(PopFromEmptyList);
        }
        var left := stack[|stack| - 1];
        stack := stack[..|stack| - 1];
        assert before[..|before| - 2] == stack;
        stack := stack + [Bin(token, left, right)];
      }
    }
    assert postfix[..|postfix|] == postfix;
    if |stack| == 0 {
      return Err(ListIndexOutOfRange);
    }
    return Ok(stack[0]);
  }

  // ---------------------------------------------------------------------
  // The dictionary view
  // ---------------------------------------------------------------------

  /** `to_dict` loses nothing: the tree can be read back from it. */
  lemma {:induction false} FromToDict(n: Node)
    ensures FromDict(ToDict(n)) == Some(n)
  {
    match n
    case Leaf(v) =>
    case Bin(v, l, r) =>
      FromToDict(l);
      FromToDict(r);
  }

  /** Every dictionary that reads back as a tree is that tree's `to_dict`. */
  lemma {:induction false} ToFromDict(d: Dict)
    requires FromDict(d).Some?
    ensures ToDict(FromDict(d).value) == d
    decreases d
  {
    match (d.left, d.right)
    case (None, None) =>
    case (Some(l), Some(r)) =>
      ToFromDict(l);
      ToFromDict(r);
  }

  // ---------------------------------------------------------------------
  // What build_ast computes
  // ---------------------------------------------------------------------

  /** How many nodes the stack holds after `p`: a leaf token pushes one, any other token pops two and pushes one. */
  function Depth(p: seq<string>): int
    decreases |p|
  {
    if |p| == 0 then 0
    else Depth(p[..|p| - 1]) + (if IsOperand(p[|p| - 1]) then 1 else -1)
  }

  /** No token other than a leaf token ever finds fewer than two nodes. */
  predicate Evaluable(p: seq<string>)
    decreases |p|
  {
    |p| == 0 || (Evaluable(p[..|p| - 1]) && (IsOperand(p[|p| - 1]) || Depth(p[..|p| - 1]) >= 2))
  }

  /** The shape `build_ast` gives its trees: leaf tokens at the leaves, other tokens inside. */
  predicate WellShaped(n: Node) {
    match n
    case Leaf(v) => IsOperand(v)
    case Bin(v, l, r) => !IsOperand(v) && WellShaped(l) && WellShaped(r)
  }

  lemma FlattenLast(s: seq<Node>, n: Node)
    ensures Flatten(s + [n]) == Flatten(s) + PostOrder(n)
  {
    assert (s + [n])[..|s|] == s;
  }

  /** One iteration: it fails only for lack of nodes, and it keeps the stack's reading and shape. */
  lemma PushFacts(s: seq<Node>, t: string)
    requires forall k :: 0 <= k < |s| ==> WellShaped(s[k])
    ensures Push(s, t).Ok? <==> IsOperand(t) || |s| >= 2
    ensures Push(s, t).Err? ==> Push(s, t) == Err(PopFromEmptyList)
    ensures Push(s, t).Ok? ==>
      var s' := Push(s, t).value;
      |s'| == |s| + (if IsOperand(t) then 1 else -1) && Flatten(s') == Flatten(s) + [t] &&
      forall k :: 0 <= k < |s'| ==> WellShaped(s'[k])
  {
    if IsOperand(t) {
      FlattenLast(s, Leaf(t));
      assert forall k :: 0 <= k < |s| ==> (s + [Leaf(t)])[k] == s[k];
    } else if |s| >= 2 {
      CombineFlatten(s[..|s| - 2], s[|s| - 2], s[|s| - 1], t);
      CombineShape(s[..|s| - 2], s[|s| - 2], s[|s| - 1], t);
      assert s == s[..|s| - 2] + [s[|s| - 2]] + [s[|s| - 1]];
    }
  }

  /** Combining the two top trees under an operator appends the operator to the stack's reading. */
  lemma CombineFlatten(u: seq<Node>, a: Node, b: Node, t: string)
    ensures Flatten(u + [Bin(t, a, b)]) == Flatten(u + [a] + [b]) + [t]
  {
    var n := Bin(t, a, b);
    var fu, pa, pb := Flatten(u), PostOrder(a), PostOrder(b);
    FlattenLast(u, n);
    FlattenLast(u, a);
    FlattenLast(u + [a], b);
    assert PostOrder(n) == pa + pb + [t];
    assert Flatten(u + [a] + [b]) == fu + pa + pb;
    assert fu + (pa + pb + [t]) == fu + pa + pb + [t];
  }

  /** Combining the two top trees under an operator keeps every tree well shaped. */
  lemma CombineShape(u: seq<Node>, a: Node, b: Node, t: string)
    requires !IsOperand(t)
    requires forall k :: 0 <= k < |u| ==> WellShaped(u[k])
    requires WellShaped(a) && WellShaped(b)
    ensures forall k :: 0 <= k < |u| + 1 ==> WellShaped((u + [Bin(t, a, b)])[k])
  {
    var s' := u + [Bin(t, a, b)];
    forall k | 0 <= k < |u| + 1 ensures WellShaped(s'[k]) {
      if k < |u| {
        assert s'[k] == u[k];
      }
    }
  }

  /**
   * The stack after `p` exists exactly when `p` is evaluable; it then holds
   * `Depth(p)` well-shaped trees whose post-order readings, one after the
   * other, give back `p`.
   */
  lemma {:induction false} BuildStackIff(p: seq<string>)
    ensures BuildStack(p).Ok? <==> Evaluable(p)
    ensures BuildStack(p).Err? ==> BuildStack(p) == Err(PopFromEmptyList)
    ensures BuildStack(p).Ok? ==>
      var s := BuildStack(p).value;
      |s| == Depth(p) && Flatten(s) == p && forall k :: 0 <= k < |s| ==> WellShaped(s[k])
    decreases |p|
  {
    if |p| > 0 {
      var q := p[..|p| - 1];
      var t := p[|p| - 1];
      BuildStackIff(q);
      assert q + [t] == p;
      if BuildStack(q).Ok? {
        PushFacts(BuildStack(q).value, t);
      }
    }
  }

  /**
   * `build_ast` succeeds exactly on evaluable lists that leave at least one
   * node; an operator short of nodes fails on `pop`, an empty list on `stack[0]`.
   */
  lemma BuildIff(p: seq<string>)
    ensures Build(p).Ok? <==> Evaluable(p) && Depth(p) >= 1
    ensures Build(p) == Err(PopFromEmptyList) <==> !Evaluable(p)
    ensures Build(p) == Err(ListIndexOutOfRange) <==> p == []
  {
    BuildStackIff(p);
    if p != [] && Evaluable(p) {
      DepthPositive(p);
    }
  }

  lemma {:induction false} DepthPositive(p: seq<string>)
    requires p != [] && Evaluable(p)
    ensures Depth(p) >= 1
    decreases |p|
  {
    if |p| > 1 {
      DepthPositive(p[..|p| - 1]);
    }
  }

  /** When exactly one node remains, its post-order reading is the input list. */
  lemma SingleTree(p: seq<string>)
    requires BuildStack(p).Ok? && |BuildStack(p).value| == 1
    ensures Build(p).Ok? && PostOrder(Build(p).value) == p && WellShaped(Build(p).value)
  {
    BuildStackIff(p);
    var s := BuildStack(p).value;
    assert s[..0] == [];
  }

  /** Reading a tree's post-order list onto a stack pushes exactly that tree. */
  lemma {:induction false} PushTree(q: seq<string>, n: Node)
    requires BuildStack(q).Ok? && WellShaped(n)
    ensures BuildStack(q + PostOrder(n)) == Ok(BuildStack(q).value + [n])
    decreases n
  {
    var s := BuildStack(q).value;
    match n
    case Leaf(v) =>
      BuildStackLast(q, v);
    case Bin(v, l, r) =>
      PushTree(q, l);
      PushTree(q + PostOrder(l), r);
      PushTreeBin(q, s, v, l, r);
  }

  /** The last step for an inner node: the operator combines the two trees just pushed. */
  lemma PushTreeBin(q: seq<string>, s: seq<Node>, v: string, l: Node, r: Node)
    requires !IsOperand(v)
    requires BuildStack(q + PostOrder(l) + PostOrder(r)) == Ok(s + [l] + [r])
    ensures BuildStack(q + PostOrder(Bin(v, l, r))) == Ok(s + [Bin(v, l, r)])
  {
    var q2 := q + PostOrder(l) + PostOrder(r);
    BuildStackLast(q2, v);
    PushBin(s, l, r, v);
    assert q2 + [v] == q + PostOrder(Bin(v, l, r)) by {
      assert PostOrder(Bin(v, l, r)) == PostOrder(l) + PostOrder(r) + [v];
    }
  }

  lemma PushBin(s: seq<Node>, l: Node, r: Node, v: string)
    requires !IsOperand(v)
    ensures Push(s + [l] + [r], v) == Ok(s + [Bin(v, l, r)])
  {
    var s2 := s + [l] + [r];
    assert s2[..|s2| - 2] == s && s2[|s2| - 2] == l && s2[|s2| - 1] == r;
  }

  /** `build_ast` inverts the post-order reading of every tree it can build. */
  lemma BuildPostOrder(n: Node)
    requires WellShaped(n)
    ensures Build(PostOrder(n)) == Ok(n)
  {
    PushTree([], n);
    assert [] + PostOrder(n) == PostOrder(n);
  }

  /** Nodes left over under the bottom one are ignored without an error. */
  lemma LeftoverIgnored(a: Node, b: Node)
    requires WellShaped(a) && WellShaped(b)
    ensures Build(PostOrder(a) + PostOrder(b)) == Ok(a)
  {
    PushTree([], a);
    assert [] + PostOrder(a) == PostOrder(a);
    PushTree(PostOrder(a), b);
  }

  /** The right child is the later subtree: `1 2 -` is `1 - 2`. */
  lemma RightPoppedFirst()
    ensures Build(["1", "2", "-"]) == Ok(Bin("-", Leaf("1"), Leaf("2")))
  {
    var n := Bin("-", Leaf("1"), Leaf("2"));
    assert IsDigit("1"[0]) && IsDigit("2"[0]);
    assert !IsOperand("-") by { assert !IsIdentChar("-"[0]); }
    assert PostOrder(n) == ["1", "2", "-"];
    BuildPostOrder(n);
  }

  /** The two ways `build_ast` fails. */
  lemma BuildErrors()
    ensures Build([]) == Err(ListIndexOutOfRange)
    ensures Build(["3", "+"]) == Err(PopFromEmptyList)
  {
    assert IsDigit("3"[0]);
    assert !IsOperand("+") by { assert !IsIdentChar("+"[0]); }
    BuildStackLast(["3"], "+");
    BuildStackLast([], "3");
    assert [] + ["3"] == ["3"] && ["3"] + ["+"] == ["3", "+"];
  }
}
