/**
 * The operator tables `precedence` and `associativity`, written out
 * identically in compiler/infix_to_postfix.py, Compiler/infix_to_postfix.py
 * and compiler/parser.py.
 */
module Operators {
  import opened Text

  datatype Associativity = L | R

  /** The keys of both tables: `+ - * / ^`. */
  predicate IsOperator(op: string) { |op| == 1 && IsOpChar(op[0]) }

  /** Higher binds tighter. */
  function Precedence(op: string): (p: int)
    requires IsOperator(op)
    ensures 1 <= p <= 3
  {
    if op[0] == '^' then 3 else if op[0] == '*' || op[0] == '/' then 2 else 1
  }

  function Assoc(op: string): Associativity
    requires IsOperator(op)
  {
    if op[0] == '^' then R else L
  }

  /**
   * The test of the conversion loop: the stacked operator `top` goes to the
   * output before the incoming `op` is pushed.
   */
  predicate PopsBefore(op: string, top: string)
    requires IsOperator(op) && IsOperator(top)
  {
    (Assoc(op) == L && Precedence(op) <= Precedence(top)) ||
    (Assoc(op) == R && Precedence(op) < Precedence(top))
  }

  lemma OperatorsAreNotOperands(op: string)
    requires IsOperator(op)
    ensures !IsDigits(op) && !IsIdentifier(op)
  {
  }
}
