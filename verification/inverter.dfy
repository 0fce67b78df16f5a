/**
 * The inverter: a runnable that drives a child virtual machine over a goal and
 * answers the negation of that goal.
 *
 * `ConstraintInverter` is the folder that negates operations (the `Inverting`
 * folder of module Folder) and, for every constraint set with at least one
 * operation, records a new binding of the constrained variable to a partial
 * holding one `Or` of the negated operations.
 *
 * `Inverter.Run` passes the child's events through, collecting `Result`
 * events instead of returning them. On `Done`, when results were collected and
 * the caller gave a parent binding trail, it drains the child's bindings from
 * the binding stack pointer `bsp` onward, inverts them and appends the new
 * bindings to the parent trail, moving `bsp` past them.
 *
 * Corrected drain: as written, the drain hands every drained value to
 * `fold_term`, which stops on a partial before `fold_constraints` is reached
 * (`AsWrittenDrain`). `InvertAll`, `InvertBinding`, `InvertDrained`,
 * `MergeBack`, `OnDone` and `Run` instead follow the evidently intended
 * drain, which sends a binding to a partial to `fold_constraints`.
 *
 * The child virtual machine is not modelled: it is a script of the outcomes of
 * its successive `run` calls, together with its binding trail.
 */
module Inverter {
  import opened Terms
  import opened Folder
  import Negation
  import NegationSemantics

  // ---------------------------------------------------------------------
  // Inverting one constraint set
  // ---------------------------------------------------------------------

  /** Negating an operation: the table negates the operator, then every
      argument is folded with the inverting folder, in order. */
  lemma InvertOperation(o: Operation)
    ensures FoldOperation(Inverting, o).Ok? <==>
      Negation.Negatable(o.operator) && forall i :: 0 <= i < |o.args| ==> FoldTerm(Inverting, o.args[i]).Ok?
    ensures FoldOperation(Inverting, o).Ok? ==>
      && FoldOperation(Inverting, o).value.operator == Negation.Negate(o.operator).value
      && |FoldOperation(Inverting, o).value.args| == |o.args|
      && forall i :: 0 <= i < |o.args| ==> FoldTerm(Inverting, o.args[i]) == Ok(FoldOperation(Inverting, o).value.args[i])
    ensures !Negation.Negatable(o.operator) ==> FoldOperation(Inverting, o) == Panic(NegateUnsupported(o.operator))
  {
    FoldListPointwise(Inverting, o.args);
  }

  /** The arguments of the `Or` that inverts a list of operations: each
      operation negated and wrapped in a temporary expression term. */
  function NegatedArgs(ops: seq<Operation>): (r: Result<seq<Term>>)
    ensures r.Ok? ==> |r.value| == |ops|
  {
    if ops == [] then Ok([])
    else
      var init :- NegatedArgs(ops[..|ops| - 1]);
      var last :- FoldOperation(Inverting, ops[|ops| - 1]);
      Ok(init + [Term(Temporary, Expression(last))])
  }

  /** The i-th argument is the i-th operation negated, and the arguments are
      built exactly when every operation can be negated. */
  lemma {:induction false} NegatedArgsPointwise(ops: seq<Operation>)
    ensures NegatedArgs(ops).Ok? <==> forall i :: 0 <= i < |ops| ==> FoldOperation(Inverting, ops[i]).Ok?
    ensures NegatedArgs(ops).Ok? ==> forall i :: 0 <= i < |ops| ==>
      NegatedArgs(ops).value[i] == Term(Temporary, Expression(FoldOperation(Inverting, ops[i]).value))
  {
    if ops != [] {
      var init := ops[..|ops| - 1];
      NegatedArgsPointwise(init);
      assert forall i :: 0 <= i < |init| ==> init[i] == ops[i];
    }
  }

  /** Once a prefix of the operations fails to negate, the whole list fails
      with the same failure: the first failure wins. */
  lemma {:induction false} NegatedArgsPrefixFailure(ops: seq<Operation>, n: nat)
    requires n <= |ops| && NegatedArgs(ops[..n]).Panic?
    ensures NegatedArgs(ops) == NegatedArgs(ops[..n])
    decreases |ops|
  {
    if n < |ops| {
      var init := ops[..|ops| - 1];
      assert init[..n] == ops[..n];
      NegatedArgsPrefixFailure(init, n);
    } else {
      assert ops[..n] == ops;
    }
  }

  /** The binding that inverts one constraint set: none for an empty set,
      otherwise the constrained variable bound to a temporary partial on the
      same variable, holding one `Or` of the negated operations. */
  function InvertConstraints(c: Constraints): (r: Result<Option<Binding>>)
    ensures c.operations == [] ==> r == Ok(None)
    ensures r.Ok? && c.operations != [] ==> r.value.Some? && r.value.value.variable == c.variable
    ensures r.Ok? && r.value.Some? ==>
      var t := r.value.value.value;
      && t.info == Temporary
      && t.value.Partial?
      && t.value.constraints.variable == c.variable
      && |t.value.constraints.operations| == 1
      && t.value.constraints.operations[0].operator == Or
      && |t.value.constraints.operations[0].args| == |c.operations|
  {
    if c.operations == [] then Ok(None)
    else
      var args :- NegatedArgs(c.operations);
      Ok(Some(Binding(c.variable, Term(Temporary, Partial(Constraints(c.variable, [Operation(Or, args)]))))))
  }

  /** Under an assignment that makes every operation a formula, each
      argument of the `Or` holds exactly when its operation does not. */
  lemma NegatedArgsMeaning(ops: seq<Operation>, env: NegationSemantics.Env)
    requires forall i :: 0 <= i < |ops| ==> NegationSemantics.Formula(ops[i], env)
    ensures NegatedArgs(ops).Ok?
    ensures NegationSemantics.FormulaArgs(NegatedArgs(ops).value, env)
    ensures forall i :: 0 <= i < |ops| ==>
      NegationSemantics.HoldsTerm(NegatedArgs(ops).value[i], env) == !NegationSemantics.Holds(ops[i], env)
  {
    forall i | 0 <= i < |ops|
      ensures FoldOperation(Inverting, ops[i]).Ok?
      ensures NegationSemantics.Formula(FoldOperation(Inverting, ops[i]).value, env)
      ensures NegationSemantics.Holds(FoldOperation(Inverting, ops[i]).value, env) == !NegationSemantics.Holds(ops[i], env)
    {
      NegationSemantics.NegateFormula(ops[i], env);
    }
    NegatedArgsPointwise(ops);
  }

  /** The `Or` of a new binding, when its variable's constraints are formulas
      over integers: it holds under an assignment exactly when not every one of
      the original operations holds, so the new partial is the negation of the
      old one. */
  lemma InvertedConstraintsMeaning(c: Constraints, env: NegationSemantics.Env)
    requires c.operations != []
    requires forall i :: 0 <= i < |c.operations| ==> NegationSemantics.Formula(c.operations[i], env)
    ensures InvertConstraints(c).Ok? && InvertConstraints(c).value.Some?
    ensures
      var or := InvertConstraints(c).value.value.value.value.constraints.operations[0];
      && NegationSemantics.Formula(or, env)
      && (NegationSemantics.Holds(or, env) <==>
          !forall i :: 0 <= i < |c.operations| ==> NegationSemantics.Holds(c.operations[i], env))
  {
    var ops := c.operations;
    NegatedArgsMeaning(ops, env);
    var args := NegatedArgs(ops).value;
    var or := Operation(Or, args);
    assert InvertConstraints(c).value.value.value.value.constraints.operations[0] == or;
    assert NegationSemantics.Holds(or, env) == NegationSemantics.AnyHolds(args, env);
    if NegationSemantics.AnyHolds(args, env) {
      var i :| 0 <= i < |args| && NegationSemantics.HoldsTerm(args[i], env);
      assert !NegationSemantics.Holds(ops[i], env);
    } else {
      forall i | 0 <= i < |ops| ensures NegationSemantics.Holds(ops[i], env) {
        assert !NegationSemantics.HoldsTerm(args[i], env);
      }
    }
  }

  /** Inverting twice: inverting the constraint set of the binding that
      inverting `c` produced gives an `Or` that holds exactly when every one
      of the original operations holds. */
  lemma InvertTwiceMeaning(c: Constraints, env: NegationSemantics.Env)
    requires c.operations != []
    requires forall i :: 0 <= i < |c.operations| ==> NegationSemantics.Formula(c.operations[i], env)
    ensures InvertConstraints(c).Ok? && InvertConstraints(c).value.Some?
    ensures
      var once := InvertConstraints(c).value.value.value.value.constraints;
      && InvertConstraints(once).Ok? && InvertConstraints(once).value.Some?
      && var twice := InvertConstraints(once).value.value.value.value.constraints;
      && twice.variable == c.variable
      && NegationSemantics.Formula(twice.operations[0], env)
      && (NegationSemantics.Holds(twice.operations[0], env) <==>
          forall i :: 0 <= i < |c.operations| ==> NegationSemantics.Holds(c.operations[i], env))
  {
    InvertedConstraintsMeaning(c, env);
    var once := InvertConstraints(c).value.value.value.value.constraints;
    InvertedConstraintsMeaning(once, env);
  }

  /** The negation reaches into the operands too: a comparison whose operand
      is itself an expression outside the table, such as a field lookup, stops
      with `todo!` instead of being negated. */
  lemma NestedOperandPanics(x: Term)
    ensures
      var lookup := Term(Test, Expression(Operation(Dot, [x, Term(Test, Str("a"))])));
      FoldOperation(Inverting, Operation(Gt, [lookup, Term(Test, Value.Number(Integer(5)))])) == Panic(NegateUnsupported(Dot))
  {
    var lookup := Term(Test, Expression(Operation(Dot, [x, Term(Test, Str("a"))])));
    assert FoldOperation(Inverting, lookup.value.o) == Panic(NegateUnsupported(Dot));
    assert FoldTerm(Inverting, lookup) == Panic(NegateUnsupported(Dot));
    assert FoldList(Inverting, [lookup, Term(Test, Value.Number(Integer(5)))]) == Panic(NegateUnsupported(Dot));
  }

  /** `ConstraintInverter`: a folder that records the bindings its constraint
      inversions produce. */
  class ConstraintInverter {
    var newBindings: seq<Binding>

    constructor()
      ensures newBindings == []
    {
      newBindings := [];
    }

    /** Inverts one constraint set: pushes the binding `InvertConstraints`
        builds, if any, and returns the constraint set unchanged. */
    method FoldConstraints(c: Constraints) returns (r: Result<Constraints>)
      modifies this
      ensures r.Ok? <==> InvertConstraints(c).Ok?
      ensures r.Ok? ==> r.value == c
      ensures r.Ok? ==> newBindings == old(newBindings) + OptionList(InvertConstraints(c).value)
      ensures r.Panic? ==> r.failure == InvertConstraints(c).failure && newBindings == old(newBindings)
    {
      var ops := c.operations;
      if ops != [] {
        var args: seq<Term> := [];
        var i := 0;
        while i < |ops|
          invariant 0 <= i <= |ops|
          invariant NegatedArgs(ops[..i]) == Ok(args)
        {
          var o := FoldOperation(Inverting, ops[i]);
          assert ops[..i + 1][..i] == ops[..i];
          if o.Panic? {
            NegatedArgsPrefixFailure(ops, i + 1);
            return Panic(o.failure);
          }
          args := args + [Term(Temporary, Expression(o.value))];
          i := i + 1;
        }
        assert ops[..i] == ops;
        newBindings := newBindings + [Binding(c.variable, Term(Temporary, Partial(Constraints(c.variable, [Operation(Or, args)]))))];
      }
      r := Ok(c);
    }

    /** Inverts the bindings drained from the child's trail, in order: a
        binding to a partial goes to `FoldConstraints`, any other value is
        folded with the inverting folder and the folded term discarded
        (corrected drain; `AsWrittenDrain` is the code as written). */
    method InvertAll(drained: seq<Binding>) returns (r: Result<()>)
      modifies this
      ensures r.Ok? <==> InvertDrained(drained).Ok?
      ensures r.Ok? ==> newBindings == old(newBindings) + InvertDrained(drained).value
      ensures r.Panic? ==> r.failure == InvertDrained(drained).failure
    {
      var i := 0;
      while i < |drained|
        invariant 0 <= i <= |drained|
        invariant InvertDrained(drained[..i]).Ok?
        invariant newBindings == old(newBindings) + InvertDrained(drained[..i]).value
      {
        var b := drained[i];
        assert drained[..i + 1][..i] == drained[..i];
        if b.value.value.Partial? {
          var folded := FoldConstraints(b.value.value.constraints);
          if folded.Panic? {
            InvertDrainedPrefixFailure(drained, i + 1);
            return Panic(folded.failure);
          }
        } else {
          var folded := FoldTerm(Inverting, b.value);
          if folded.Panic? {
            InvertDrainedPrefixFailure(drained, i + 1);
            return Panic(folded.failure);
          }
        }
        i := i + 1;
      }
      assert drained[..i] == drained;
      r := Ok(());
    }
  }

  function OptionList<T>(o: Option<T>): (r: seq<T>)
    ensures |r| <= 1
  {
    if o.Some? then [o.value] else []
  }

  /** What inverting one drained binding adds to the new bindings, under
      the corrected drain (a partial goes to `fold_constraints`). */
  function InvertBinding(b: Binding): (r: Result<Option<Binding>>)
    ensures !b.value.value.Partial? ==> r.Ok? ==> r.value.None?
    ensures b.value.value.Partial? ==> r == InvertConstraints(b.value.value.constraints)
  {
    if b.value.value.Partial? then InvertConstraints(b.value.value.constraints)
    else
      var _ :- FoldTerm(Inverting, b.value);
      Ok(None)
  }

  /** The new bindings from inverting a drained run of bindings, in order,
      under the corrected drain; `AsWrittenDrain` is the code as written. */
  function InvertDrained(bs: seq<Binding>): (r: Result<seq<Binding>>)
    ensures r.Ok? ==> |r.value| <= |bs|
  {
    if bs == [] then Ok([])
    else
      var init :- InvertDrained(bs[..|bs| - 1]);
      var b :- InvertBinding(bs[|bs| - 1]);
      Ok(init + OptionList(b))
  }

  lemma {:induction false} InvertDrainedPrefixFailure(bs: seq<Binding>, n: nat)
    requires n <= |bs| && InvertDrained(bs[..n]).Panic?
    ensures InvertDrained(bs) == InvertDrained(bs[..n])
    decreases |bs|
  {
    if n < |bs| {
      var init := bs[..|bs| - 1];
      assert init[..n] == bs[..n];
      InvertDrainedPrefixFailure(init, n);
    } else {
      assert bs[..n] == bs;
    }
  }

  /** The constraint sets with at least one operation among the drained
      bindings' partials, in trail order: the sets the merge inverts. */
  function Constrained(bs: seq<Binding>): (r: seq<Constraints>)
    ensures |r| <= |bs|
    ensures forall i :: 0 <= i < |r| ==> r[i].operations != []
  {
    if bs == [] then []
    else
      var b := bs[|bs| - 1];
      Constrained(bs[..|bs| - 1]) +
        if b.value.value.Partial? && b.value.value.constraints.operations != [] then [b.value.value.constraints] else []
  }

  /** A successful inversion adds one binding per non-empty constraint set,
      in order, each the inversion of its set, and nothing for the rest. */
  lemma {:induction false} InvertDrainedBindings(bs: seq<Binding>)
    requires InvertDrained(bs).Ok?
    ensures |InvertDrained(bs).value| == |Constrained(bs)|
    ensures forall i :: 0 <= i < |Constrained(bs)| ==>
      InvertConstraints(Constrained(bs)[i]) == Ok(Some(InvertDrained(bs).value[i]))
  {
    if bs != [] {
      InvertDrainedBindings(bs[..|bs| - 1]);
    }
  }

  /** The merge sets `result` to "some binding was added": it is true exactly
      when some drained partial has at least one operation. */
  lemma {:induction false} InvertDrainedNonEmpty(bs: seq<Binding>)
    requires InvertDrained(bs).Ok?
    ensures (|InvertDrained(bs).value| > 0) <==> exists i :: 0 <= i < |bs| && bs[i].value.value.Partial? && bs[i].value.value.constraints.operations != []
  {
    InvertDrainedBindings(bs);
    ConstrainedEmpty(bs);
  }

  lemma {:induction false} ConstrainedEmpty(bs: seq<Binding>)
    ensures Constrained(bs) == [] <==> forall i :: 0 <= i < |bs| ==> !(bs[i].value.value.Partial? && bs[i].value.value.constraints.operations != [])
  {
    if bs != [] {
      var init := bs[..|bs| - 1];
      ConstrainedEmpty(init);
      assert forall i :: 0 <= i < |init| ==> init[i] == bs[i];
    }
  }

  /** The drain as written: every drained value goes to the inverter's
      `fold_term`, whose default `fold_value` stops on a partial, so
      `fold_constraints` is never reached and nothing is ever added. */
  function AsWrittenDrain(bs: seq<Binding>): (r: Result<seq<Binding>>)
    ensures r.Ok? ==> r.value == []
  {
    if bs == [] then Ok([])
    else
      var init :- AsWrittenDrain(bs[..|bs| - 1]);
      var _ :- FoldTerm(Inverting, bs[|bs| - 1].value);
      Ok(init)
  }

  /** As written, a drain holding any partial binding panics instead of
      inverting it; otherwise it adds nothing. */
  lemma {:induction false} AsWrittenNeverMerges(bs: seq<Binding>)
    requires exists i :: 0 <= i < |bs| && bs[i].value.value.Partial?
    ensures AsWrittenDrain(bs).Panic?
  {
    var init := bs[..|bs| - 1];
    if bs[|bs| - 1].value.value.Partial? {
      assert FoldTerm(Inverting, bs[|bs| - 1].value).Panic?;
    } else {
      var i :| 0 <= i < |bs| && bs[i].value.value.Partial?;
      assert init[i] == bs[i];
      AsWrittenNeverMerges(init);
    }
  }

  /** The trail `x` bound to a partial `x > 5`: the corrected drain adds the
      binding of `x` to `x <= 5`, the drain as written panics. */
  lemma AsWrittenDropsConstraint()
    ensures
      var x := Term(Test, Variable("x"));
      var five := Term(Test, Value.Number(Integer(5)));
      var trail := [Binding("x", Term(Test, Partial(Constraints("x", [Operation(Gt, [x, five])]))))];
      && AsWrittenDrain(trail) == Panic(FoldUnsupported(Partial(Constraints("x", [Operation(Gt, [x, five])]))))
      && InvertDrained(trail) == Ok([Binding("x", Term(Temporary, Partial(Constraints("x",
           [Operation(Or, [Term(Temporary, Expression(Operation(Leq, [x, five])))])]))))])
  {
    var x := Term(Test, Variable("x"));
    var five := Term(Test, Value.Number(Integer(5)));
    var trail := [Binding("x", Term(Test, Partial(Constraints("x", [Operation(Gt, [x, five])]))))];
    assert trail[..0] == [];
    NegationSemantics.GreaterThanFive("x", Test);
    var ops := [Operation(Gt, [x, five])];
    assert ops[..0] == [];
    assert FoldOperation(Inverting, ops[0]) == Ok(Operation(Leq, [x, five]));
    assert NegatedArgs(ops[..0]) == Ok([]);
    assert [] + [Term(Temporary, Expression(Operation(Leq, [x, five])))] == [Term(Temporary, Expression(Operation(Leq, [x, five])))];
    assert NegatedArgs(ops) == Ok([Term(Temporary, Expression(Operation(Leq, [x, five])))]);
    var nb := Binding("x", Term(Temporary, Partial(Constraints("x",
      [Operation(Or, [Term(Temporary, Expression(Operation(Leq, [x, five])))])]))));
    assert InvertConstraints(trail[0].value.value.constraints) == Ok(Some(nb));
    assert InvertBinding(trail[0]) == Ok(Some(nb));
    assert InvertDrained(trail[..0]) == Ok([]);
    assert [] + OptionList(Some(nb)) == [nb];
  }

  // ---------------------------------------------------------------------
  // The child virtual machine and the event loop
  // ---------------------------------------------------------------------

  /** The events `run` tells apart; the rest of the query events are
      represented by the external-call, isa and debug requests. */
  datatype QueryEvent =
    | Done(result: bool)
    | ResultEvent(bindings: map<Symbol, Term>)
    | ExternalCall(callId: nat, instance: Term, attribute: Symbol, args: seq<Term>)
    | ExternalIsa(callId: nat, instance: Term, classTag: Symbol)
    | Debug(message: string)

  /** The outcome of one `run` of the child machine: an event, or an error. */
  datatype VmStep = Emitted(event: QueryEvent) | Errored(message: string)

  /** The outcome of the inverter's `run`: an event returned, a panic, or a
      script that ran out without the loop ever returning. */
  datatype RunOutcome = Returned(event: QueryEvent) | Panicked(failure: Failure) | Diverged

  /** The child virtual machine: the outcomes of its successive runs, and its
      binding trail. */
  class ChildVm {
    var steps: seq<VmStep>
    var bindings: seq<Binding>

    constructor(steps: seq<VmStep>, bindings: seq<Binding>)
      ensures this.steps == steps && this.bindings == bindings
    {
      this.steps := steps;
      this.bindings := bindings;
    }

    method Run() returns (s: VmStep)
      requires steps != []
      modifies this
      ensures s == old(steps[0]) && steps == old(steps[1..]) && bindings == old(bindings)
    {
      s := steps[0];
      steps := steps[1..];
    }
  }

  /** A parent binding trail. */
  class BindingStack {
    var bindings: seq<Binding>

    constructor(bindings: seq<Binding>)
      ensures this.bindings == bindings
    {
      this.bindings := bindings;
    }
  }

  /** A step at which the loop returns: any event but `Result`. Errors are
      skipped and results collected. */
  predicate Stops(s: VmStep)
  {
    s.Emitted? && !s.event.ResultEvent?
  }

  /** Where the loop returns: the first step that stops it, or the script's
      length when none does. */
  function StopIndex(steps: seq<VmStep>): (k: nat)
    ensures k <= |steps|
    ensures forall j :: 0 <= j < k ==> !Stops(steps[j])
    ensures k < |steps| ==> Stops(steps[k])
  {
    if steps == [] then 0
    else if Stops(steps[0]) then 0
    else 1 + StopIndex(steps[1..])
  }

  /** The loop reaches a `Done` event. */
  predicate EndsInDone(steps: seq<VmStep>)
  {
    StopIndex(steps) < |steps| && steps[StopIndex(steps)].event.Done?
  }

  /** The bindings of the `Result` events among the steps, in order. */
  function Collected(steps: seq<VmStep>): (r: seq<map<Symbol, Term>>)
    ensures |r| <= |steps|
  {
    if steps == [] then []
    else
      var s := steps[|steps| - 1];
      Collected(steps[..|steps| - 1]) + if s.Emitted? && s.event.ResultEvent? then [s.event.bindings] else []
  }

  /** Every collected result comes from a `Result` event of the steps, and
      every such event is collected. */
  lemma {:induction false} CollectedResults(steps: seq<VmStep>)
    ensures |Collected(steps)| == |set i | 0 <= i < |steps| && steps[i].Emitted? && steps[i].event.ResultEvent?|
    ensures forall m :: m in Collected(steps) <==>
      exists i :: 0 <= i < |steps| && steps[i] == Emitted(ResultEvent(m))
  {
    if steps != [] {
      var init := steps[..|steps| - 1];
      var last := |steps| - 1;
      CollectedResults(init);
      assert forall i :: 0 <= i < |init| ==> init[i] == steps[i];
      var isResult := (i: int) => 0 <= i < |steps| && steps[i].Emitted? && steps[i].event.ResultEvent?;
      var all := set i | 0 <= i < |steps| && steps[i].Emitted? && steps[i].event.ResultEvent?;
      var before := set i | 0 <= i < |init| && init[i].Emitted? && init[i].event.ResultEvent?;
      if steps[last].Emitted? && steps[last].event.ResultEvent? {
        assert all == before + {last};
      } else {
        assert all == before;
      }
    }
  }

  /** The inverter runnable. `result` is the answer it reports with `Done`;
      the merge sets it. */
  class Inverter {
    const vm: ChildVm
    var results: seq<map<Symbol, Term>>
    var result: bool

    /** `Inverter::new`: a child machine over the goals, no results yet.
        The struct has no `result` field of its own, so the value `run`
        reports when it does not merge is not fixed by the code; it is a
        parameter here (`initial`). */
    constructor(steps: seq<VmStep>, bindings: seq<Binding>, initial: bool)
      ensures fresh(vm) && vm.steps == steps && vm.bindings == bindings
      ensures results == [] && result == initial
    {
      vm := new ChildVm(steps, bindings);
      results := [];
      result := initial;
    }

    /** The merge-back on `Done`: drains the child's bindings from `bsp`,
        inverts them and appends the new bindings to the parent trail;
        returns the new `bsp`. Follows the corrected drain. */
    method MergeBack(parent: BindingStack, bsp: Option<nat>) returns (r: Result<nat>)
      modifies this, vm, parent
      ensures vm.steps == old(vm.steps) && results == old(results)
      ensures r.Ok? <==> Merged(old(vm.bindings), bsp).Ok?
      ensures r.Panic? ==> r.failure == Merged(old(vm.bindings), bsp).failure
      ensures r.Panic? ==> parent.bindings == old(parent.bindings)
      ensures r.Ok? ==>
        var added := Merged(old(vm.bindings), bsp).value;
        && vm.bindings == old(vm.bindings)[..bsp.value]
        && r.value == bsp.value + |added|
        && parent.bindings == old(parent.bindings) + added
        && result == (|added| > 0)
    {
      if bsp.None? {
        return Panic(MissingBsp);
      }
      var start := bsp.value;
      if start > |vm.bindings| {
        return Panic(DrainOutOfRange(start, |vm.bindings|));
      }
      var inverter := new ConstraintInverter();
      var drained := vm.bindings[start..];
      assert Merged(vm.bindings, bsp) == InvertDrained(drained);
      vm.bindings := vm.bindings[..start];
      var inverted := inverter.InvertAll(drained);
      if inverted.Panic? {
        return Panic(inverted.failure);
      }
      var added := inverter.newBindings;
      assert added == InvertDrained(drained).value;
      result := |added| > 0;
      parent.bindings := parent.bindings + added;
      r := Ok(start + |added|);
    }

    /** The loop of `run` up to the event it returns: errors from the child
        are skipped and `Result` events collected; the first other event is
        returned, or none when the child's script runs out. */
    method NextEvent() returns (e: Option<QueryEvent>)
      modifies this, vm
      ensures var k := StopIndex(old(vm.steps));
        && results == old(results) + Collected(old(vm.steps)[..k])
        && (e.None? <==> k == |old(vm.steps)|)
        && (e.Some? ==> e.value == old(vm.steps)[k].event && vm.steps == old(vm.steps)[k + 1..])
      ensures e.None? ==> vm.steps == []
      ensures vm.bindings == old(vm.bindings) && result == old(result)
    {
      ghost var script := vm.steps;
      ghost var k := 0;
      while vm.steps != []
        invariant 0 <= k <= StopIndex(script) && vm.steps == script[k..]
        invariant results == old(results) + Collected(script[..k])
        invariant vm.bindings == old(vm.bindings) && result == old(result)
        decreases |vm.steps|
      {
        var step := vm.Run();
        assert step == script[k];
        assert script[..k + 1][..k] == script[..k];
        k := k + 1;
        if step.Emitted? {
          if step.event.ResultEvent? {
            results := results + [step.event.bindings];
          } else {
            return Some(step.event);
          }
        }
      }
      assert script[..k] == script;
      return None;
    }

    /** The `Done` branch of `run`: merges back when results were collected
        and there is a parent trail, then reports `result`. Follows the
        corrected drain. */
    method OnDone(parent: BindingStack?, bsp: Option<nat>) returns (r: RunOutcome, bspOut: Option<nat>)
      modifies this, vm, parent
      ensures vm.steps == old(vm.steps) && results == old(results)
      ensures r.Returned? ==> r.event == Done(result)
      ensures !(results != [] && parent != null) ==>
        && r.Returned? && bspOut == bsp
        && vm.bindings == old(vm.bindings) && result == old(result)
        && (parent != null ==> parent.bindings == old(parent.bindings))
      ensures results != [] && parent != null ==>
        (r.Returned? <==> Merged(old(vm.bindings), bsp).Ok?) &&
        (r.Panicked? <==> Merged(old(vm.bindings), bsp).Panic?)
      ensures results != [] && parent != null && r.Returned? ==>
        var added := Merged(old(vm.bindings), bsp).value;
        && vm.bindings == old(vm.bindings)[..bsp.value]
        && parent.bindings == old(parent.bindings) + added
        && bspOut == Some(bsp.value + |added|)
        && result == (|added| > 0)
      ensures r.Panicked? ==> r.failure == Merged(old(vm.bindings), bsp).failure
    {
      if results != [] && parent != null {
        var merged := MergeBack(parent, bsp);
        if merged.Panic? {
          return Panicked(merged.failure), bsp;
        }
        bspOut := Some(merged.value);
      } else {
        bspOut := bsp;
      }
      r := Returned(Done(result));
    }

    /** `run`: drives the child until it returns an event other than a
        result, collecting results on the way; on `Done`, merges the
        inverted bindings into the parent trail when there is one and some
        result was collected. Follows the corrected drain. */
    method Run(parent: BindingStack?, bsp: Option<nat>) returns (r: RunOutcome, bspOut: Option<nat>)
      modifies this, vm, parent
      ensures results == old(results) + Collected(old(vm.steps)[..StopIndex(old(vm.steps))])
      ensures r.Returned? ==> !r.event.ResultEvent?
      ensures r.Diverged? ==> vm.steps == []
      ensures !EndsInDone(old(vm.steps)) ==>
        && bspOut == bsp && vm.bindings == old(vm.bindings) && result == old(result)
        && (parent != null ==> parent.bindings == old(parent.bindings))
        && r == if StopIndex(old(vm.steps)) == |old(vm.steps)| then Diverged
                else Returned(old(vm.steps)[StopIndex(old(vm.steps))].event)
      ensures EndsInDone(old(vm.steps)) && !(results != [] && parent != null) ==>
        && r == Returned(Done(old(result))) && bspOut == bsp && vm.bindings == old(vm.bindings)
        && (parent != null ==> parent.bindings == old(parent.bindings))
      ensures EndsInDone(old(vm.steps)) && results != [] && parent != null ==>
        match Merged(old(vm.bindings), bsp)
        case Panic(f) => r == Panicked(f)
        case Ok(added) =>
          && r == Returned(Done(|added| > 0))
          && vm.bindings == old(vm.bindings)[..bsp.value]
          && parent.bindings == old(parent.bindings) + added
          && bspOut == Some(bsp.value + |added|)
          && result == (|added| > 0)
    {
      var e := NextEvent();
      if e.None? {
        return Diverged, bsp;
      }
      if e.value.Done? {
        r, bspOut := OnDone(parent, bsp);
      } else {
        r, bspOut := Returned(e.value), bsp;
      }
    }
  }

  /** The merge-back's outcome on a child trail and `bsp`: the new bindings
      inverting the drained part, or the panic. */
  function Merged(vmBindings: seq<Binding>, bsp: Option<nat>): (r: Result<seq<Binding>>)
    ensures bsp.None? ==> r == Panic(MissingBsp)
    ensures bsp.Some? && bsp.value > |vmBindings| ==> r == Panic(DrainOutOfRange(bsp.value, |vmBindings|))
    ensures r.Ok? ==> bsp.Some? && |r.value| <= |vmBindings| - bsp.value
  {
    match bsp
    case None => Panic(MissingBsp)
    case Some(start) =>
      if start > |vmBindings| then Panic(DrainOutOfRange(start, |vmBindings|))
      else InvertDrained(vmBindings[start..])
  }
}
