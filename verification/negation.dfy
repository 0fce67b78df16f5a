/**
 * The operator negation table of `ConstraintInverter::fold_operation`.
 * And and Or swap (De Morgan), the equalities become Neq and back, and each
 * ordering comparison becomes its complement. Any other operator has no
 * negation: the inverter stops with `todo!`.
 */
module Negation {
  import opened Terms

  /** The operators the table covers. */
  predicate Negatable(op: Operator)
  {
    op in {And, Or, Unify, Eq, Neq, Gt, Geq, Lt, Leq}
  }

  function Negate(op: Operator): (r: Result<Operator>)
    ensures r.Ok? <==> Negatable(op)
    ensures r.Panic? ==> r.failure == NegateUnsupported(op)
    ensures r.Ok? ==> Negatable(r.value) && r.value != op
  {
    match op
    case And => Ok(Or)
    case Or => Ok(And)
    case Unify => Ok(Neq)
    case Eq => Ok(Neq)
    case Neq => Ok(Unify)
    case Gt => Ok(Leq)
    case Geq => Ok(Lt)
    case Lt => Ok(Geq)
    case Leq => Ok(Gt)
    case _ => Panic(NegateUnsupported(op))
  }

  /** Negating twice gives back the operator, except Eq, which comes back as Unify. */
  lemma NegateTwice(op: Operator)
    requires Negatable(op)
    ensures Negate(op).Ok? && Negate(Negate(op).value).Ok?
    ensures Negate(Negate(op).value).value == if op == Eq then Unify else op
  {
  }
}
