/**
 * What a negated constraint means. A constraint formula is an operation tree
 * whose inner nodes are And and Or and whose leaves compare two integer
 * operands (integer literals or variables). Evaluated under an assignment of
 * integers to variables, the tree the inverter builds holds exactly when the
 * original does not: the negation table is De Morgan's law for And and Or and
 * the complement of each comparison.
 */
module NegationSemantics {
  import opened Terms
  import opened Folder
  import Negation

  /** Values for the variables a formula mentions. */
  type Env = map<Symbol, int>

  predicate Connective(op: Operator)
  {
    op == And || op == Or
  }

  predicate Comparison(op: Operator)
  {
    op in {Unify, Eq, Neq, Gt, Geq, Lt, Leq}
  }

  /** An integer literal, or a variable that the environment gives a value. */
  predicate Operand(t: Term, env: Env)
  {
    (t.value.Number? && t.value.n.Integer?) || (t.value.Variable? && t.value.v in env)
  }

  function OperandValue(t: Term, env: Env): int
    requires Operand(t, env)
  {
    if t.value.Number? then t.value.n.i else env[t.value.v]
  }

  function Compare(op: Operator, a: int, b: int): bool
    requires Comparison(op)
  {
    match op
    case Unify => a == b
    case Eq => a == b
    case Neq => a != b
    case Gt => a > b
    case Geq => a >= b
    case Lt => a < b
    case Leq => a <= b
  }

  /** A term that is a formula: an expression whose operation is one. */
  ghost predicate FormulaTerm(t: Term, env: Env)
    decreases t
  {
    t.value.Expression? && Formula(t.value.o, env)
  }

  ghost predicate Formula(o: Operation, env: Env)
    decreases o
  {
    if Connective(o.operator) then FormulaArgs(o.args, env)
    else Comparison(o.operator) && |o.args| == 2 && Operand(o.args[0], env) && Operand(o.args[1], env)
  }

  ghost predicate FormulaArgs(args: seq<Term>, env: Env)
    decreases args
  {
    forall i :: 0 <= i < |args| ==> FormulaTerm(args[i], env)
  }

  ghost function HoldsTerm(t: Term, env: Env): bool
    requires FormulaTerm(t, env)
    decreases t
  {
    Holds(t.value.o, env)
  }

  /** And holds when every argument holds, Or when some argument does. */
  ghost function Holds(o: Operation, env: Env): bool
    requires Formula(o, env)
    decreases o
  {
    if o.operator == And then AllHold(o.args, env)
    else if o.operator == Or then AnyHolds(o.args, env)
    else Compare(o.operator, OperandValue(o.args[0], env), OperandValue(o.args[1], env))
  }

  ghost function AllHold(args: seq<Term>, env: Env): bool
    requires FormulaArgs(args, env)
    decreases args
  {
    forall i :: 0 <= i < |args| ==> HoldsTerm(args[i], env)
  }

  ghost function AnyHolds(args: seq<Term>, env: Env): bool
    requires FormulaArgs(args, env)
    decreases args
  {
    exists i :: 0 <= i < |args| && HoldsTerm(args[i], env)
  }

  /** The negated comparison holds exactly when the comparison does not. */
  lemma NegateComparison(op: Operator, a: int, b: int)
    requires Comparison(op)
    ensures Negation.Negate(op).Ok? && Comparison(Negation.Negate(op).value)
    ensures Compare(Negation.Negate(op).value, a, b) == !Compare(op, a, b)
  {
  }

  /** A comparison's operands are leaves of the fold: the inverter keeps them as they are. */
  lemma OperandsFoldToThemselves(args: seq<Term>, env: Env)
    requires |args| == 2 && Operand(args[0], env) && Operand(args[1], env)
    ensures FoldList(Inverting, args) == Ok(args)
  {
    assert FoldTerm(Inverting, args[0]) == Ok(args[0]);
    assert FoldTerm(Inverting, args[1]) == Ok(args[1]);
    FoldListPointwise(Inverting, args);
    var r := FoldList(Inverting, args).value;
    assert r[0] == args[0] && r[1] == args[1];
    assert r == args;
  }

  /** Soundness of the inverter on formulas: the negated formula is again a
      formula over the same operands, and it holds exactly when the original fails. */
  lemma {:induction false} NegateFormulaTerm(t: Term, env: Env)
    requires FormulaTerm(t, env)
    ensures FoldTerm(Inverting, t).Ok?
    ensures FormulaTerm(FoldTerm(Inverting, t).value, env)
    ensures HoldsTerm(FoldTerm(Inverting, t).value, env) == !HoldsTerm(t, env)
    decreases t
  {
    NegateFormula(t.value.o, env);
  }

  lemma {:induction false} NegateFormula(o: Operation, env: Env)
    requires Formula(o, env)
    ensures FoldOperation(Inverting, o).Ok?
    ensures Formula(FoldOperation(Inverting, o).value, env)
    ensures Holds(FoldOperation(Inverting, o).value, env) == !Holds(o, env)
    decreases o
  {
    if Connective(o.operator) {
      NegateFormulaArgs(o.args, env);
    } else {
      NegateComparison(o.operator, OperandValue(o.args[0], env), OperandValue(o.args[1], env));
      OperandsFoldToThemselves(o.args, env);
    }
  }

  lemma {:induction false} NegateFormulaArgs(args: seq<Term>, env: Env)
    requires FormulaArgs(args, env)
    ensures FoldList(Inverting, args).Ok?
    ensures FormulaArgs(FoldList(Inverting, args).value, env)
    ensures AllHold(FoldList(Inverting, args).value, env) == !AnyHolds(args, env)
    ensures AnyHolds(FoldList(Inverting, args).value, env) == !AllHold(args, env)
    decreases args
  {
    forall i | 0 <= i < |args|
      ensures FoldTerm(Inverting, args[i]).Ok?
      ensures FormulaTerm(FoldTerm(Inverting, args[i]).value, env)
      ensures HoldsTerm(FoldTerm(Inverting, args[i]).value, env) == !HoldsTerm(args[i], env)
    {
      NegateFormulaTerm(args[i], env);
    }
    FoldListPointwise(Inverting, args);
  }

  /** Negating twice gives a formula equivalent to the original. */
  lemma DoubleNegationEquivalent(o: Operation, env: Env)
    requires Formula(o, env)
    ensures FoldOperation(Inverting, o).Ok?
    ensures FoldOperation(Inverting, FoldOperation(Inverting, o).value).Ok?
    ensures Formula(FoldOperation(Inverting, FoldOperation(Inverting, o).value).value, env)
    ensures Holds(FoldOperation(Inverting, FoldOperation(Inverting, o).value).value, env) == Holds(o, env)
  {
    NegateFormula(o, env);
    NegateFormula(FoldOperation(Inverting, o).value, env);
  }

  /** No operation in the formula uses Eq, the one operator the table does not restore. */
  ghost predicate EqFree(o: Operation)
    decreases o
  {
    && o.operator != Eq
    && forall i :: 0 <= i < |o.args| ==> EqFreeTerm(o.args[i])
  }

  ghost predicate EqFreeTerm(t: Term)
    decreases t
  {
    t.value.Expression? ==> EqFree(t.value.o)
  }

  /** Without Eq, negating a formula twice gives back the very same formula. */
  lemma {:induction false} DoubleNegationRestoresTerm(t: Term, env: Env)
    requires FormulaTerm(t, env) && EqFreeTerm(t)
    ensures FoldTerm(Inverting, t).Ok?
    ensures FoldTerm(Inverting, FoldTerm(Inverting, t).value) == Ok(t)
    decreases t
  {
    DoubleNegationRestores(t.value.o, env);
  }

  lemma {:induction false} DoubleNegationRestores(o: Operation, env: Env)
    requires Formula(o, env) && EqFree(o)
    ensures FoldOperation(Inverting, o).Ok?
    ensures FoldOperation(Inverting, FoldOperation(Inverting, o).value) == Ok(o)
    decreases o
  {
    NegateFormula(o, env);
    Negation.NegateTwice(o.operator);
    var n1 := FoldOperation(Inverting, o).value;
    if Connective(o.operator) {
      forall i | 0 <= i < |o.args|
        ensures FoldTerm(Inverting, o.args[i]).Ok?
        ensures FoldTerm(Inverting, FoldTerm(Inverting, o.args[i]).value) == Ok(o.args[i])
      {
        DoubleNegationRestoresTerm(o.args[i], env);
      }
      FoldListPointwise(Inverting, o.args);
      FoldListPointwise(Inverting, n1.args);
      var n2 := FoldList(Inverting, n1.args).value;
      assert n2 == o.args by {
        forall i | 0 <= i < |o.args| ensures n2[i] == o.args[i] {
          assert FoldTerm(Inverting, n1.args[i]) == Ok(n2[i]);
        }
      }
    } else {
      OperandsFoldToThemselves(o.args, env);
      OperandsFoldToThemselves(n1.args, env);
    }
  }

  /** `x > 5` negates to `x <= 5`, and that negates back to `x > 5`. */
  lemma GreaterThanFive(x: Symbol, info: SourceInfo)
    ensures
      var xs := Term(info, Variable(x));
      var five := Term(info, Value.Number(Integer(5)));
      && FoldOperation(Inverting, Operation(Gt, [xs, five])) == Ok(Operation(Leq, [xs, five]))
      && FoldOperation(Inverting, Operation(Leq, [xs, five])) == Ok(Operation(Gt, [xs, five]))
  {
    var xs := Term(info, Variable(x));
    var five := Term(info, Value.Number(Integer(5)));
    OperandsFoldToThemselves([xs, five], map[x := 0]);
  }
}
