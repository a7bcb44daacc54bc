/**
 * Compiler/codegen.py: postfix tokens to stack-machine instructions. A
 * number is pushed, a name loaded, each operator becomes its mnemonic and
 * `=` a store; any other token, such as a `(` left in the postfix list,
 * produces nothing.
 */
module CodeGen {
  import opened Results
  import opened Text
  import opened Operators

  /** The mnemonic table of the operator branch. */
  function Mnemonic(op: string): string
    requires IsOperator(op)
  {
    if op == "+" then "ADD"
    else if op == "-" then "SUB"
    else if op == "*" then "MUL"
    else if op == "/" then "DIV"
    else "POW"
  }

  /** The instruction one token becomes, tried in the order of the `if` chain. */
  function Instruction(t: string): Option<string> {
    if IsDigits(t) then Some("PUSH " + t)
    else if IsIdentifier(t) then Some("LOAD " + t)
    else if IsOperator(t) then Some(Mnemonic(t))
    else if t == "=" then Some("STORE")
    else None
  }

  function Emit(t: string): seq<string> {
    match Instruction(t)
    case Some(i) => [i]
    case None => []
  }

  /** The list `generate_code(postfix)` returns. */
  function Generate(p: seq<string>): seq<string>
    decreases |p|
  {
    if |p| == 0 then [] else Generate(p[..|p| - 1]) + Emit(p[|p| - 1])
  }

  /** `generate_code(postfix)`, loop for loop. */
  method GenerateCode(postfix: seq<string>) returns (instructions: seq<string>)
    ensures instructions == Generate(postfix)
  {
    instructions := [];
    for i := 0 to |postfix|
      invariant instructions == Generate(postfix[..i])
    {
      var token := postfix[i];
      assert postfix[..i + 1][..i] == postfix[..i];
      if IsDigits(token) {
        instructions := instructions + ["PUSH " + token];
      } else if IsIdentifier(token) {
        instructions := instructions + ["LOAD " + token];
      } else if IsOperator(token) {
        instructions := instructions + [Mnemonic(token)];
      } else if token == "=" {
        instructions := instructions + ["STORE"];
      }
    }
    assert postfix[..|postfix|] == postfix;
  }

  // ---------------------------------------------------------------------
  // Properties
  // ---------------------------------------------------------------------

  /** Exactly numbers, names, the five operators and `=` produce an instruction. */
  lemma EmitsIff(t: string)
    ensures Instruction(t).Some? <==> IsOperand(t) || IsOperator(t) || t == "="
  {
  }

  /** Reading an instruction back: the operand after PUSH or LOAD, or the symbol of a mnemonic. */
  function Decode(i: string): string {
    if |i| >= 5 && i[..5] == "PUSH " then i[5..]
    else if |i| >= 5 && i[..5] == "LOAD " then i[5..]
    else if i == "ADD" then "+"
    else if i == "SUB" then "-"
    else if i == "MUL" then "*"
    else if i == "DIV" then "/"
    else if i == "POW" then "^"
    else if i == "STORE" then "="
    else i
  }

  lemma DecodeInstruction(t: string)
    requires Instruction(t).Some?
    ensures Decode(Instruction(t).value) == t
  {
    if IsDigits(t) || IsIdentifier(t) {
      var i := Instruction(t).value;
      assert i[..5] == (if IsDigits(t) then "PUSH " else "LOAD ") && i[5..] == t;
    } else if IsOperator(t) {
      assert t == [t[0]];
      SymbolIsNoOperand(t[0]);
      if t[0] == '+' { assert t == "+" && Decode("ADD") == "+"; }
      else if t[0] == '-' { assert t == "-" && Decode("SUB") == "-"; }
      else if t[0] == '*' { assert t == "*" && Decode("MUL") == "*"; }
      else if t[0] == '/' { assert t == "/" && Decode("DIV") == "/"; }
      else { assert t == "^" && Decode("POW") == "^"; }
    } else {
      assert "STORE"[..5] == "STORE" && "STORE"[0] != "PUSH "[0] && "STORE"[0] != "LOAD "[0];
    }
  }

  function DecodeAll(code: seq<string>): (r: seq<string>)
    ensures |r| == |code|
  {
    seq(|code|, k requires 0 <= k < |code| => Decode(code[k]))
  }

  /** The tokens that produce an instruction, in order. */
  function Emitting(p: seq<string>): seq<string>
    decreases |p|
  {
    if |p| == 0 then []
    else Emitting(p[..|p| - 1]) + (if Instruction(p[|p| - 1]).Some? then [p[|p| - 1]] else [])
  }

  /**
   * One instruction per emitting token, in token order: decoding the
   * instructions gives back exactly the tokens that produced them.
   */
  lemma {:induction false} DecodeGenerate(p: seq<string>)
    ensures DecodeAll(Generate(p)) == Emitting(p)
    ensures |Generate(p)| == |Emitting(p)| <= |p|
    decreases |p|
  {
    if |p| > 0 {
      var q := p[..|p| - 1];
      var t := p[|p| - 1];
      DecodeGenerate(q);
      if Instruction(t).Some? {
        DecodeInstruction(t);
        assert DecodeAll(Generate(p)) == DecodeAll(Generate(q)) + [t];
      } else {
        assert Generate(p) == Generate(q);
      }
    }
  }

  /** Code for a concatenation is the concatenation of the code. */
  lemma {:induction false} GenerateAppend(p: seq<string>, q: seq<string>)
    ensures Generate(p + q) == Generate(p) + Generate(q)
    decreases |q|
  {
    if |q| == 0 {
      assert p + q == p;
    } else {
      var q' := q[..|q| - 1];
      assert (p + q)[..|p + q| - 1] == p + q';
      GenerateAppend(p, q');
    }
  }

  /** `3 4 2 * +` becomes PUSH 3, PUSH 4, PUSH 2, MUL, ADD. */
  lemma Example(p: seq<string>)
    requires p == ["3", "4", "2", "*", "+"]
    ensures Generate(p) == ["PUSH 3", "PUSH 4", "PUSH 2", "MUL", "ADD"]
  {
    ExampleEmits(p);
    assert Generate(p[..1]) == ["PUSH 3"] by { assert p[..1][..0] == []; }
    assert Generate(p[..2]) == ["PUSH 3", "PUSH 4"] by { assert p[..2][..1] == p[..1]; }
    assert Generate(p[..3]) == ["PUSH 3", "PUSH 4", "PUSH 2"] by { assert p[..3][..2] == p[..2]; }
    assert Generate(p[..4]) == ["PUSH 3", "PUSH 4", "PUSH 2", "MUL"] by { assert p[..4][..3] == p[..3]; }
    assert p[..5][..4] == p[..4] && p[..5] == p;
  }

  lemma ExampleEmits(p: seq<string>)
    requires p == ["3", "4", "2", "*", "+"]
    ensures Emit(p[0]) == ["PUSH 3"] && Emit(p[1]) == ["PUSH 4"] && Emit(p[2]) == ["PUSH 2"]
    ensures Emit(p[3]) == ["MUL"] && Emit(p[4]) == ["ADD"]
  {
    assert Emit("3") == ["PUSH 3"] by { assert IsDigit("3"[0]) && "PUSH " + "3" == "PUSH 3"; }
    assert Emit("4") == ["PUSH 4"] by { assert IsDigit("4"[0]) && "PUSH " + "4" == "PUSH 4"; }
    assert Emit("2") == ["PUSH 2"] by { assert IsDigit("2"[0]) && "PUSH " + "2" == "PUSH 2"; }
    assert Emit("*") == ["MUL"] by { SymbolIsNoOperand('*'); }
    assert Emit("+") == ["ADD"] by { SymbolIsNoOperand('+'); }
  }

  /** A token no branch matches, such as `(`, is passed over silently. */
  lemma ParenthesisEmitsNothing(p: seq<string>, q: seq<string>)
    ensures Generate(p + ["("] + q) == Generate(p) + Generate(q)
  {
    assert Emit("(") == [] by {
      SymbolIsNoOperand('(');
      assert !IsOperator("(") by { assert "("[0] == '('; }
    }
    GenerateAppend(p + ["("], q);
    assert (p + ["("])[..|p|] == p;
  }
}
