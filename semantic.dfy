/**
 * compiler/semantic.py: the declared-before-use check. One left-to-right
 * pass over the lexer's tokens with a growing set of declared names: a name
 * directly followed by `=` is declared, any other occurrence of a name must
 * already be declared.
 */
module Semantic {
  import opened Results
  import opened Lexer

  /** The NameError `check_semantics` raises; it names the variable. */
  datatype SemanticError = UndeclaredVariable(name: string)

  /** Token `i` is an ID immediately followed by an ASSIGN token. */
  predicate AssignedAt(ts: seq<Token>, i: int)
    requires 0 <= i < |ts|
  {
    ts[i].kind == ID && i + 1 < |ts| && ts[i + 1].kind == ASSIGN
  }

  /** The set `declared_vars` holds after the first `n` tokens. */
  function Declared(ts: seq<Token>, n: nat): set<string>
    requires n <= |ts|
  {
    if n == 0 then {}
    else Declared(ts, n - 1) + (if AssignedAt(ts, n - 1) then {ts[n - 1].value} else {})
  }

  /** Token `i` is an ID that is neither assigned here nor declared before. */
  predicate Offends(ts: seq<Token>, i: int)
    requires 0 <= i < |ts|
  {
    ts[i].kind == ID && !AssignedAt(ts, i) && ts[i].value !in Declared(ts, i)
  }

  /** The outcome of the pass from token `i` on, the tokens before `i` having passed. */
  function CheckFrom(ts: seq<Token>, i: nat): Result<(), SemanticError>
    requires i <= |ts|
    decreases |ts| - i
  {
    if i == |ts| then Ok(())
    else if Offends(ts, i) then Err(UndeclaredVariable(ts[i].value))
    else CheckFrom(ts, i + 1)
  }

  /** `check_semantics(tokens)`: no error, or the error of the first offending name. */
  function Check(ts: seq<Token>): Result<(), SemanticError> {
    CheckFrom(ts, 0)
  }

  /** `check_semantics(tokens)`, loop for loop. */
  method CheckSemantics(tokens: seq<Token>) returns (r: Result<(), SemanticError>)
    ensures r == Check(tokens)
  {
    var declared: set<string> := {};
    for i := 0 to |tokens|
      invariant declared == Declared(tokens, i)
      invariant Check(tokens) == CheckFrom(tokens, i)
    {
      var t := tokens[i];
      if t.kind == ID {
        if i + 1 < |tokens| && tokens[i + 1].kind == ASSIGN {
          declared := declared + {t.value};
        } else if t.value !in declared {
          return Err(UndeclaredVariable(t.value));
        }
      }
    }
    return Ok(());
  }

  // ---------------------------------------------------------------------
  // Properties
  // ---------------------------------------------------------------------

  /** The declared set only grows. */
  lemma {:induction false} DeclaredGrows(ts: seq<Token>, m: nat, n: nat)
    requires m <= n <= |ts|
    ensures Declared(ts, m) <= Declared(ts, n)
    decreases n - m
  {
    if m < n {
      DeclaredGrows(ts, m, n - 1);
    }
  }

  /** An earlier occurrence of the same name that was directly followed by ASSIGN. */
  predicate DeclaredEarlier(ts: seq<Token>, i: int)
    requires 0 <= i < |ts|
  {
    exists j :: 0 <= j < i && AssignedAt(ts, j) && ts[j].value == ts[i].value
  }

  /** Token `i` passes the check: it is no ID, or it is assigned here, or it was declared before. */
  predicate Passes(ts: seq<Token>, i: int)
    requires 0 <= i < |ts|
  {
    ts[i].kind == ID ==> AssignedAt(ts, i) || DeclaredEarlier(ts, i)
  }

  /** The declared set is exactly the names assigned before position `n`. */
  lemma {:induction false} DeclaredIff(ts: seq<Token>, n: nat, x: string)
    requires n <= |ts|
    ensures x in Declared(ts, n) <==> exists j :: 0 <= j < n && AssignedAt(ts, j) && ts[j].value == x
    decreases n
  {
    if n > 0 {
      DeclaredIff(ts, n - 1, x);
    }
  }

  lemma OffendsIff(ts: seq<Token>, i: int)
    requires 0 <= i < |ts|
    ensures Offends(ts, i) <==> !Passes(ts, i)
  {
    DeclaredIff(ts, i, ts[i].value);
  }

  lemma {:induction false} CheckFromIff(ts: seq<Token>, k: nat)
    requires k <= |ts|
    ensures CheckFrom(ts, k).Ok? <==> forall i :: k <= i < |ts| ==> Passes(ts, i)
    ensures CheckFrom(ts, k).Err? ==>
      exists i :: k <= i < |ts| && !Passes(ts, i) && CheckFrom(ts, k).error == UndeclaredVariable(ts[i].value) &&
        forall j :: k <= j < i ==> Passes(ts, j)
    decreases |ts| - k
  {
    if k < |ts| {
      OffendsIff(ts, k);
      CheckFromIff(ts, k + 1);
      if !Offends(ts, k) && CheckFrom(ts, k).Err? {
        var i :| k + 1 <= i < |ts| && !Passes(ts, i) && CheckFrom(ts, k).error == UndeclaredVariable(ts[i].value) &&
          forall j :: k + 1 <= j < i ==> Passes(ts, j);
        assert forall j :: k <= j < i ==> Passes(ts, j);
      }
    }
  }

  /**
   * The check succeeds exactly when every ID is directly followed by ASSIGN
   * or an earlier occurrence of the same name was.
   */
  lemma CheckOkIff(ts: seq<Token>)
    ensures Check(ts).Ok? <==> forall i :: 0 <= i < |ts| ==> Passes(ts, i)
  {
    CheckFromIff(ts, 0);
  }

  /** A failure names the first token that does not pass, and it is an ID. */
  lemma CheckErrIff(ts: seq<Token>, x: string)
    ensures Check(ts) == Err(UndeclaredVariable(x)) <==>
      exists i :: 0 <= i < |ts| && !Passes(ts, i) && ts[i].value == x && forall j :: 0 <= j < i ==> Passes(ts, j)
    ensures Check(ts).Err? ==> exists i :: 0 <= i < |ts| && ts[i].kind == ID && Check(ts).error.name == ts[i].value
  {
    CheckFromIff(ts, 0);
    if exists i :: 0 <= i < |ts| && !Passes(ts, i) && ts[i].value == x && forall j :: 0 <= j < i ==> Passes(ts, j) {
      var i :| 0 <= i < |ts| && !Passes(ts, i) && ts[i].value == x && forall j :: 0 <= j < i ==> Passes(ts, j);
      assert Check(ts).Err?;
      var i' :| 0 <= i' < |ts| && !Passes(ts, i') && Check(ts).error == UndeclaredVariable(ts[i'].value) &&
        forall j :: 0 <= j < i' ==> Passes(ts, j);
      assert i == i';
    }
  }

  /**
   * A name as the last token is never declared by its own occurrence: after
   * tokens that pass, it passes only if it was assigned earlier.
   */
  lemma {:induction false} TrailingName(ts: seq<Token>, x: string)
    ensures Check(ts + [Token(ID, x)]) ==
      if Check(ts).Err? then Check(ts)
      else if x in Declared(ts, |ts|) then Ok(())
      else Err(UndeclaredVariable(x))
  {
    CheckFromAgree(ts, x, 0);
  }

  lemma {:induction false} DeclaredAgree(ts: seq<Token>, us: seq<Token>, n: nat)
    requires n <= |ts| <= |us|
    requires forall i :: 0 <= i < |ts| ==> (AssignedAt(us, i) <==> AssignedAt(ts, i)) && us[i] == ts[i]
    ensures Declared(us, n) == Declared(ts, n)
    decreases n
  {
    if n > 0 {
      DeclaredAgree(ts, us, n - 1);
    }
  }

  lemma {:induction false} CheckFromAgree(ts: seq<Token>, x: string, k: nat)
    requires k <= |ts|
    ensures CheckFrom(ts + [Token(ID, x)], k) ==
      if CheckFrom(ts, k).Err? then CheckFrom(ts, k)
      else if x in Declared(ts, |ts|) then Ok(())
      else Err(UndeclaredVariable(x))
    decreases |ts| - k
  {
    var us := ts + [Token(ID, x)];
    if k == |ts| {
      assert !AssignedAt(us, k);
      DeclaredAgree(ts, us, k);
    } else {
      assert forall i :: 0 <= i < |ts| ==> (AssignedAt(us, i) <==> AssignedAt(ts, i)) && us[i] == ts[i];
      DeclaredAgree(ts, us, k);
      CheckFromAgree(ts, x, k + 1);
    }
  }

  /** `x + 1` fails on `x`. */
  lemma UseBeforeDeclaration()
    ensures Check([Token(ID, "x"), Token(OP, "+"), Token(NUMBER, "1")]) == Err(UndeclaredVariable("x"))
  {
  }

  /** `x = x + 1` passes: the target is declared before the right-hand use is reached. */
  lemma SelfAssignment()
    ensures Check([Token(ID, "x"), Token(ASSIGN, "="), Token(ID, "x"), Token(OP, "+"), Token(NUMBER, "1")]) == Ok(())
  {
    var ts := [Token(ID, "x"), Token(ASSIGN, "="), Token(ID, "x"), Token(OP, "+"), Token(NUMBER, "1")];
    assert AssignedAt(ts, 0);
    assert "x" in Declared(ts, 2) by { assert Declared(ts, 1) == {"x"}; }
  }
}
