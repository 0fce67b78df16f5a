# Folding and negating terms in the Polar resolution engine

This project models two connected parts of the core of the Polar policy
engine (polar-core).

**The generic tree transform (`Folder`).** A folder walks a rule or a term and
rebuilds it with the same shape, calling one hook per part. The default hooks
recurse structurally. The leaf hooks (number, string, boolean, id, variable,
name, operator) return their input. A `Partial` value has no fold and stops the
fold with `todo!`. The engine has two folders:

- the all-default folder, `Folder.Trivial`;
- the `ConstraintInverter`, `Folder.Inverting`. It overrides only
  `fold_operation`: it negates the operator through a table and folds the
  arguments with the default `fold_list`. Operators outside the table stop it
  with `todo!`.

The fold functions take the folder as a parameter. A hook that panics is a
`Result.Panic` carrying the reason. A `BTreeMap<Symbol, Term>` is a sequence
of fields in key order, and `collect` into a map is `Terms.Collect`.

**The inverter.** `ConstraintInverter::fold_constraints` handles a constraint
set (the `Partial` of one variable) with at least one operation. It records one
new binding of that variable to a temporary `Partial` holding a single `Or` of
the negated operations. An empty set adds nothing.

`Inverter::run` drives a child machine:

- errors are skipped;
- `Result` events are collected and not returned;
- any other event except `Done` is returned unchanged.

On `Done`, if results were collected and there is a parent trail, `run` merges
back:

- it drains the child's bindings from the binding stack pointer `bsp` onward
  and inverts them;
- it appends the new bindings to the parent trail;
- it advances `bsp` by their number;
- it sets `result` to "some binding was added".

The child machine is modelled as a script of the outcomes of its successive
`run` calls, plus its binding trail.

The module `NegationSemantics` gives the negation table a meaning. It
evaluates And/Or trees of integer comparisons under an assignment of integers
to variables. It proves that the tree the inverter builds holds exactly when
the original does not, and that negating twice gives an equivalent formula.
Without `Eq`, negating twice gives back the same formula.

Files:

- `terms.dfy`: module `Terms`, the term algebra, `Result`, and the BTreeMap
  model.
- `negation.dfy`: module `Negation`, the operator table.
- `folder.dfy`: module `Folder`, the fold and its laws.
- `semantics.dfy`: module `NegationSemantics`.
- `inverter.dfy`: module `Inverter`, with the classes `ConstraintInverter`,
  `ChildVm`, `BindingStack` and `Inverter`.

The shown source is in the middle of a refactor:

- `fold_constraints` is not a hook of the `Folder` trait;
- `fold_value` sends `Partial` to `todo!`;
- `self.result` is not declared as a field of `Inverter`.

The members that model the drain split in two:

- `Inverter.AsWrittenDrain`, `Inverter.AsWrittenNeverMerges` and
  `Inverter.AsWrittenDropsConstraint` follow the drain as written. It hands
  every drained value to `fold_term`, which stops on a partial before
  `fold_constraints` is reached.
- `Inverter.ConstraintInverter.InvertAll`, `Inverter.InvertBinding`,
  `Inverter.InvertDrained`, `Inverter.Inverter.MergeBack`,
  `Inverter.Inverter.OnDone` and `Inverter.Inverter.Run` follow the corrected
  drain, which sends a drained partial to `fold_constraints` (see Findings).

The doc comment of `run` (polar-core/src/inverter.rs:80-81) says that ground
results make the negation fail. The code sets `result` only in the merge,
and the model does the same. The code does not fix the value reported without
a merge, so it is a parameter of the `Inverter` constructor.

## Model

| member | source | states |
|---|---|---|
| Folder.FoldNumber | polar-core/src/folder.rs:101-103 | no contract of its own: returns its input; `Folder.LeavesFoldToThemselves` and `Folder.ValueIdentity` state the law |
| Folder.FoldString | polar-core/src/folder.rs:105-107 | no contract of its own: returns its input; covered by `Folder.LeavesFoldToThemselves` |
| Folder.FoldBoolean | polar-core/src/folder.rs:109-111 | no contract of its own: returns its input; covered by `Folder.LeavesFoldToThemselves` |
| Folder.FoldId | polar-core/src/folder.rs:113-115 | no contract of its own: returns its input; `Folder.FoldExternalInstance` keeps the id |
| Folder.FoldVariable | polar-core/src/folder.rs:174-176 | no contract of its own: returns its input; `Folder.LeavesFoldToThemselves` and `NegationSemantics.OperandsFoldToThemselves` state the law |
| Folder.FoldOperator | polar-core/src/folder.rs:184-186 | no contract of its own: returns its input; `Folder.ValueIdentity` covers it through expressions |
| Folder.FoldName | polar-core/src/folder.rs:198-200 | no contract of its own: returns its input; `Folder.FoldRule` and `Folder.FoldInstanceLiteral` keep the name |
| Folder.OperatorHook | polar-core/src/inverter.rs:41-51 | no contract of its own: the default folder keeps the operator, the inverter applies `Negation.Negate`; `Inverter.InvertOperation` states it |
| Folder.LeavesFoldToThemselves | polar-core/src/folder.rs:82-99 | under either folder, a number, string, boolean, variable or rest variable folds to itself |
| Folder.FoldTerm | polar-core/src/folder.rs:78-80 | a folded term keeps its metadata, and its value keeps its variant |
| Folder.FoldValue | polar-core/src/folder.rs:82-99 | every listed variant folds to the same variant; a `Partial` is always a `todo!` failure, never passed through |
| Folder.FoldRule | polar-core/src/folder.rs:70-76 | the name is kept, the number of parameters is kept, and the body keeps its metadata and variant |
| Folder.FoldOptionalTerm | polar-core/src/folder.rs:127 | an optional term keeps its presence or absence |
| Folder.FoldExternalInstance | polar-core/src/folder.rs:117-130 | id and repr are kept; the constructor keeps its presence or absence |
| Folder.FoldInstanceLiteral | polar-core/src/folder.rs:132-140 | the tag and the key set of the fields are kept |
| Folder.FoldDictionary | polar-core/src/folder.rs:142-152 | the key set is kept and the result is in key order |
| Folder.FoldFields | polar-core/src/folder.rs:147-150 | folding a map's entries and collecting them keeps the key set and gives a key-ordered map |
| Folder.FoldEntries | polar-core/src/folder.rs:149 | the entries keep their number and their keys, position by position |
| Folder.FoldPattern | polar-core/src/folder.rs:154-159 | a dictionary pattern stays a dictionary pattern, an instance pattern an instance pattern |
| Folder.FoldCall | polar-core/src/folder.rs:161-172 | the name and the number of arguments are kept; kwargs keep their presence or absence |
| Folder.FoldList | polar-core/src/folder.rs:178-182 | the list keeps its length |
| Folder.FoldOperation | polar-core/src/folder.rs:188-196 | the operator changes only through the folder's operator hook (the identity by default), and the arity is kept |
| Folder.FoldParam | polar-core/src/folder.rs:202-213 | the parameter keeps its metadata, and the specializer keeps its presence or absence |
| Folder.FoldParams | polar-core/src/folder.rs:215-220 | the parameter list keeps its length |
| Folder.TermIdentity | polar-core/src/folder.rs:78-80 | with all-default hooks, a term without partials and with key-ordered maps folds to itself |
| Folder.ValueIdentity | polar-core/src/folder.rs:82-95 | with all-default hooks, every listed variant folds to the same value |
| Folder.OptionalTermIdentity | polar-core/src/folder.rs:127 | with all-default hooks, an optional term folds to itself |
| Folder.ListIdentity | polar-core/src/folder.rs:178-182 | with all-default hooks, a list folds to itself |
| Folder.FieldsIdentity | polar-core/src/folder.rs:142-152 | with all-default hooks, a key-ordered map folds to itself |
| Folder.EntriesIdentity | polar-core/src/folder.rs:147-150 | with all-default hooks, map entries fold to themselves |
| Folder.RuleIdentity | polar-core/src/folder.rs:70-76 | with all-default hooks, a rule folds to itself |
| Folder.ParamsIdentity | polar-core/src/folder.rs:202-220 | with all-default hooks, a parameter list folds to itself |
| Folder.FoldScalarList | polar-core/src/folder.rs:229-234 | the list of 1, "Hi there!" and true folds to itself with the default folder |
| Folder.FoldListPointwise | polar-core/src/folder.rs:178-182 | a list folds exactly when every element does, and element i folds to result element i |
| Folder.FoldParamsPointwise | polar-core/src/folder.rs:215-220 | a parameter list folds exactly when every parameter does, and parameter i folds to result i |
| Folder.FoldEntriesPointwise | polar-core/src/folder.rs:147-150 | entries fold exactly when every value does, and value i folds to result value i |
| Folder.FoldFieldsInPlace | polar-core/src/folder.rs:142-152 | folding a map keeps its keys in order and folds the value under each key in place |
| Terms.Insert | polar-core/src/folder.rs:150 | inserting into a map adds the key to its key set (values: `Terms.InsertContents`) |
| Terms.InsertContents | polar-core/src/folder.rs:150 | in a key-ordered map, after inserting, the inserted key holds the inserted value, every entry under another key is kept, and no other entry appears |
| Terms.InsertKeepsSorted | polar-core/src/folder.rs:150 | inserting into a key-ordered map keeps it key-ordered |
| Terms.Collect | polar-core/src/folder.rs:150 | collecting fields gives a key-ordered map with exactly their keys, each holding the value of its key's last occurrence (later entries overwrite earlier ones) |
| Terms.InsertKeepsLast | polar-core/src/folder.rs:150 | one more insertion keeps every key holding the value of its last occurrence |
| Terms.CollectSortedIsIdentity | polar-core/src/folder.rs:150 | collecting a map's own entries, in order, rebuilds the same map |
| Negation.Negate | polar-core/src/inverter.rs:41-50 | the table succeeds exactly on And, Or, Unify, Eq, Neq, Gt, Geq, Lt and Leq; every other operator fails with a negation failure; a negated operator differs from the original and can itself be negated |
| Negation.NegateTwice | polar-core/src/inverter.rs:41-49 | negating twice gives back the operator, except Eq, which comes back as Unify |
| Inverter.InvertOperation | polar-core/src/inverter.rs:39-54 | negating an operation succeeds exactly when the operator is in the table and every argument folds; the operator is negated, the arity kept, and argument i folds to result i |
| Inverter.NestedOperandPanics | polar-core/src/inverter.rs:52 | a comparison whose operand is a field lookup fails with `todo!` on the lookup, because the negation is applied to the arguments too |
| NegationSemantics.NegateComparison | polar-core/src/inverter.rs:44-49 | each negated comparison holds exactly when the comparison does not |
| NegationSemantics.OperandsFoldToThemselves | polar-core/src/inverter.rs:52 | integer and variable operands pass through the inverting fold unchanged |
| NegationSemantics.NegateFormulaTerm | polar-core/src/inverter.rs:39-54 | an expression term over And, Or and comparisons negates to a formula that holds exactly when the original fails |
| NegationSemantics.NegateFormula | polar-core/src/inverter.rs:39-54 | a formula negates to a formula that holds exactly when the original fails |
| NegationSemantics.NegateFormulaArgs | polar-core/src/inverter.rs:42-43 | De Morgan: all negated arguments hold exactly when not some original holds, and some negated argument holds exactly when not all originals hold |
| NegationSemantics.DoubleNegationEquivalent | polar-core/src/inverter.rs:39-54 | negating a formula twice gives a formula with the same truth value |
| NegationSemantics.DoubleNegationRestoresTerm | polar-core/src/inverter.rs:39-54 | an expression term without Eq comes back unchanged after two negations |
| NegationSemantics.DoubleNegationRestores | polar-core/src/inverter.rs:39-54 | a formula without Eq comes back unchanged after two negations |
| NegationSemantics.GreaterThanFive | polar-core/src/inverter.rs:46-49 | `x > 5` negates to `x <= 5`, which negates back to `x > 5` |
| Inverter.NegatedArgs | polar-core/src/inverter.rs:65-70 | the `Or` gets one argument per operation |
| Inverter.NegatedArgsPointwise | polar-core/src/inverter.rs:65-70 | the arguments are built exactly when every operation negates, and argument i is operation i negated, wrapped in a temporary expression term |
| Inverter.NegatedArgsPrefixFailure | polar-core/src/inverter.rs:65-70 | the first operation that fails to negate decides the failure |
| Inverter.InvertConstraints | polar-core/src/inverter.rs:57-77 | an empty set gives no binding; otherwise one binding of the same variable to a temporary partial on that variable, holding one `Or` with one argument per operation |
| Inverter.NegatedArgsMeaning | polar-core/src/inverter.rs:65-70 | over formulas, argument i of the `Or` holds exactly when operation i does not |
| Inverter.InvertedConstraintsMeaning | polar-core/src/inverter.rs:57-77 | over formulas, the new partial's `Or` holds exactly when not every original operation holds |
| Inverter.InvertTwiceMeaning | polar-core/src/inverter.rs:57-77 | over formulas, inverting the constraint set the inversion produced gives an `Or` on the same variable that holds exactly when every original operation holds |
| Inverter.ConstraintInverter.constructor | polar-core/src/inverter.rs:31-35 | a new constraint inverter has no new bindings |
| Inverter.ConstraintInverter.FoldConstraints | polar-core/src/inverter.rs:57-77 | returns the constraint set unchanged and pushes exactly the binding `InvertConstraints` gives, or nothing; on failure nothing is pushed |
| Inverter.ConstraintInverter.InvertAll | polar-core/src/inverter.rs:108-113 | corrected drain (see Findings): inverting the drained bindings in order appends exactly `InvertDrained` of them, or fails with its failure |
| Inverter.InvertBinding | polar-core/src/inverter.rs:111-113 | corrected drain (see Findings): a drained partial binding is inverted as its constraint set; any other value adds nothing |
| Inverter.InvertDrained | polar-core/src/inverter.rs:108-113 | corrected drain (see Findings): inverting a drained run adds at most one binding per drained binding |
| Inverter.InvertDrainedPrefixFailure | polar-core/src/inverter.rs:108-113 | the first drained binding that fails decides the failure |
| Inverter.Constrained | polar-core/src/inverter.rs:58 | lists the drained constraint sets with at least one operation |
| Inverter.InvertDrainedBindings | polar-core/src/inverter.rs:105-116 | the merge adds exactly one binding per non-empty drained constraint set, in trail order, each the inversion of its set |
| Inverter.ConstrainedEmpty | polar-core/src/inverter.rs:58 | no constraint set is inverted exactly when no drained partial has an operation |
| Inverter.InvertDrainedNonEmpty | polar-core/src/inverter.rs:114 | `result` is true exactly when some drained partial has at least one operation |
| Inverter.AsWrittenDrain | polar-core/src/inverter.rs:108-113 | the drain as written adds no binding whenever it does not panic |
| Inverter.AsWrittenNeverMerges | polar-core/src/inverter.rs:108-113 | as written, a drain holding any partial binding panics |
| Inverter.AsWrittenDropsConstraint | polar-core/src/inverter.rs:108-113 | for a trail binding x to the partial `x > 5`, the drain as written panics, while the corrected drain adds x bound to `Or(x <= 5)` |
| Inverter.ChildVm.constructor | polar-core/src/inverter.rs:20 | the child starts with the given script and trail |
| Inverter.ChildVm.Run | polar-core/src/inverter.rs:93 | one run of the child yields its next outcome and leaves its trail alone |
| Inverter.BindingStack.constructor | polar-core/src/inverter.rs:87 | a parent trail holds the given bindings |
| Inverter.StopIndex | polar-core/src/inverter.rs:91-128 | the loop returns at the first step that is an event other than `Result`, and every earlier step is an error or a result |
| Inverter.Collected | polar-core/src/inverter.rs:123-125 | the collected results are no more than the steps |
| Inverter.CollectedResults | polar-core/src/inverter.rs:123-125 | exactly the bindings of the `Result` events are collected, one per event |
| Inverter.Inverter.constructor | polar-core/src/inverter.rs:18-23 | a new inverter owns a fresh child, has no results, and reports the given initial `result` until a merge sets it |
| Inverter.Inverter.MergeBack | polar-core/src/inverter.rs:105-117 | corrected drain (see Findings): a missing bsp or one past the child's trail fails; otherwise the child's trail is cut at bsp, the parent trail is extended by exactly the new bindings in order, bsp grows by their number and `result` says whether there were any |
| Inverter.Merged | polar-core/src/inverter.rs:105-116 | a missing bsp and a bsp past the trail are the two failures before any inversion |
| Inverter.Inverter.NextEvent | polar-core/src/inverter.rs:91-128 | results are collected up to the first other event, which is returned with the rest of the script left; none only when the script runs out, leaving it empty |
| Inverter.Inverter.OnDone | polar-core/src/inverter.rs:95-122 | corrected drain (see Findings): merges back only when results were collected and a parent trail is given, then reports `result`; after a merge the child's trail is cut at bsp, the parent trail extended by the new bindings, and bsp moved past them |
| Inverter.Inverter.Run | polar-core/src/inverter.rs:85-130 | corrected drain (see Findings): never returns a `Result` event; other events before `Done` come back unchanged with nothing merged; on `Done` the child's trail is cut at bsp, and the parent trail, bsp, `result` and the reported result are exactly those of the merge |

## Left out

- The child machine's internals (`PolarVirtualMachine`, `clone_with_bindings`, `vm.run`) are not part of this model. The child is a finite script of run outcomes plus a binding trail.
- Inverter.Run: an `Err` from the child is skipped, as in the code. A child that keeps failing would loop forever; here the script runs out and `Run` reports `Diverged`. Termination of `run` is not claimed.
- The `Counter` argument of `run` is unused and not modelled.
- Debug printing (`eprintln!`) is left out: it is output only.
- The lazy `inverted_results` iterator is never consumed, so it has no effect and is not modelled.
- The delegating `external_question_result`, `external_error`, `external_call_result` and `clone_runnable` are thin wrappers around the child and are not modelled.
- `terms.rs` and `events.rs` are not part of this model. The term algebra is the one `folder.rs` walks. The query events are `Done`, `Result` and three representative others. A `Result` event keeps only its bindings.
- Widths are not modelled: integers are unbounded, 64-bit floats are reals, and ids are naturals.
- Symbols are ordered character by character. For Rust strings this is the same order as byte order.
- Hook overriding in general is not modelled. Only the two folders the engine defines exist: the default folder and the inverter.
- Terms.Insert: its own contract states only the key set; the values, for key-ordered maps, are stated by the lemma `Terms.InsertContents`, since a value clause on the recursive function is too costly for every caller to carry.
- Inverter.Inverter.constructor: the code does not declare `result`, so the value reported when no merge happens is not set by it; the model takes it as the parameter `initial` rather than fixing one, since `false` would contradict the doc comment at polar-core/src/inverter.rs:80.
- Inverter.Inverter.Run: the code moves `results` into the unused iterator; the model leaves the collected results in place.
- Inverter.Inverter.MergeBack: on a panic, the model says nothing about the child's trail or `result`, since the process aborts.
- Inverter.Inverter.Run: does not restate the child's remaining script after a returned event (only that it is empty on `Diverged`); `NextEvent` states it.
- Inverter.InvertBinding: routes only a drained binding whose value is itself a `Partial` to `fold_constraints`. A partial nested inside another value still reaches the default `fold_value` and panics.

## Findings

| source | as written | input that shows it | evidently intended | confidence | as-written member | corrected member |
|---|---|---|---|---|---|---|
| polar-core/src/inverter.rs:108-113 | every drained binding's value goes to `fold_term`, whose default `fold_value` panics on `Partial` (polar-core/src/folder.rs:96-97); `fold_constraints` is never reached, so the merge panics or adds nothing | a child trail after bsp holding `x` bound to the partial `x > 5` | a drained partial's constraint set goes to `fold_constraints`, which adds `x` bound to `Or(x <= 5)` | not executed; high, since the code cannot otherwise reach `fold_constraints` | Inverter.AsWrittenDrain | Inverter.InvertDrained |
