/**
 * The generic tree transform. Each hook of a folder rebuilds its input with the
 * same shape, folding the parts; the leaf hooks (numbers, strings, booleans,
 * ids, variables, names and operators) return their input. A fold that meets a
 * `Partial` value stops with `todo!`.
 *
 * The engine has two folders, and neither carries state while folding:
 * the all-default folder (`Trivial`) and `ConstraintInverter` (`Inverting`),
 * which overrides only `fold_operation`, negating the operator and folding the
 * arguments with the default `fold_list`. Since that override is the default
 * `fold_operation` with the negation table in place of `fold_operator`, both
 * folders share `FoldOperation` and differ only in `OperatorHook`.
 */
module Folder {
  import opened Terms
  import Negation

  datatype Folder = Trivial | Inverting

  // Leaf hooks: the defaults return their input.

  function FoldNumber(n: Numeric): Numeric { n }
  function FoldString(s: string): string { s }
  function FoldBoolean(b: bool): bool { b }
  function FoldId(id: nat): nat { id }
  function FoldVariable(v: Symbol): Symbol { v }
  function FoldName(name: Symbol): Symbol { name }
  function FoldOperator(o: Operator): Operator { o }

  /** How a folder rewrites the operator of an operation. */
  function OperatorHook(f: Folder, op: Operator): Result<Operator>
  {
    match f
    case Trivial => Ok(FoldOperator(op))
    case Inverting => Negation.Negate(op)
  }

  /** Two values are built by the same variant. */
  predicate SameVariant(a: Value, b: Value)
  {
    && (a.Number? <==> b.Number?)
    && (a.Str? <==> b.Str?)
    && (a.Boolean? <==> b.Boolean?)
    && (a.ExternalInstance? <==> b.ExternalInstance?)
    && (a.InstanceLiteral? <==> b.InstanceLiteral?)
    && (a.Dictionary? <==> b.Dictionary?)
    && (a.Pattern? <==> b.Pattern?)
    && (a.Call? <==> b.Call?)
    && (a.List? <==> b.List?)
    && (a.Variable? <==> b.Variable?)
    && (a.RestVariable? <==> b.RestVariable?)
    && (a.Expression? <==> b.Expression?)
    && (a.Partial? <==> b.Partial?)
  }

  function FoldRule(f: Folder, r: Rule): (res: Result<Rule>)
    ensures res.Ok? ==> res.value.name == r.name
    ensures res.Ok? ==> |res.value.params| == |r.params|
    ensures res.Ok? ==> res.value.body.info == r.body.info && SameVariant(r.body.value, res.value.body.value)
  {
    var params :- FoldParams(f, r.params);
    var body :- FoldTerm(f, r.body);
    Ok(Rule(FoldName(r.name), params, body))
  }

  function FoldTerm(f: Folder, t: Term): (r: Result<Term>)
    decreases t
    ensures r.Ok? ==> r.value.info == t.info
    ensures r.Ok? ==> SameVariant(t.value, r.value.value)
  {
    var v :- FoldValue(f, t.value);
    Ok(Term(t.info, v))
  }

  function FoldValue(f: Folder, v: Value): (r: Result<Value>)
    decreases v
    ensures v.Partial? ==> r == Panic(FoldUnsupported(v))
    ensures r.Ok? ==> SameVariant(v, r.value)
  {
    match v
    case Number(n) => Ok(Value.Number(FoldNumber(n)))
    case Str(s) => Ok(Str(FoldString(s)))
    case Boolean(b) => Ok(Boolean(FoldBoolean(b)))
    case ExternalInstance(e) =>
      var e' :- FoldExternalInstance(f, e);
      Ok(Value.ExternalInstance(e'))
    case InstanceLiteral(i) =>
      var i' :- FoldInstanceLiteral(f, i);
      Ok(Value.InstanceLiteral(i'))
    case Dictionary(d) =>
      var d' :- FoldDictionary(f, d);
      Ok(Value.Dictionary(d'))
    case Pattern(p) =>
      var p' :- FoldPattern(f, p);
      Ok(Value.Pattern(p'))
    case Call(c) =>
      var c' :- FoldCall(f, c);
      Ok(Value.Call(c'))
    case List(l) =>
      var l' :- FoldList(f, l);
      Ok(List(l'))
    case Variable(x) => Ok(Variable(FoldVariable(x)))
    // The default `fold_rest_variable` delegates to `fold_variable`.
    case RestVariable(x) => Ok(RestVariable(FoldVariable(x)))
    case Expression(o) =>
      var o' :- FoldOperation(f, o);
      Ok(Expression(o'))
    case Partial(_) => Panic(FoldUnsupported(v))
  }

  /** `Option::map` of `fold_term`, as used for constructors and specializers. */
  function FoldOptionalTerm(f: Folder, o: Option<Term>): (r: Result<Option<Term>>)
    decreases o
    ensures r.Ok? ==> (r.value.Some? <==> o.Some?)
  {
    match o
    case None => Ok(None)
    case Some(t) =>
      var t' :- FoldTerm(f, t);
      Ok(Some(t'))
  }

  function FoldExternalInstance(f: Folder, e: ExternalInstance): (r: Result<ExternalInstance>)
    decreases e
    ensures r.Ok? ==> r.value.instanceId == e.instanceId
    ensures r.Ok? ==> (r.value.constructorTerm.Some? <==> e.constructorTerm.Some?)
    ensures r.Ok? ==> r.value.repr == e.repr
  {
    var constructorTerm :- FoldOptionalTerm(f, e.constructorTerm);
    var repr := match e.repr case None => None case Some(s) => Some(FoldString(s));
    Ok(ExternalInstance.ExternalInstance(FoldId(e.instanceId), constructorTerm, repr))
  }

  function FoldInstanceLiteral(f: Folder, i: InstanceLiteral): (r: Result<InstanceLiteral>)
    decreases i
    ensures r.Ok? ==> r.value.tag == i.tag
    ensures r.Ok? ==> KeySet(r.value.fields.fields.entries) == KeySet(i.fields.fields.entries)
  {
    var fields :- FoldDictionary(f, i.fields);
    Ok(InstanceLiteral.InstanceLiteral(FoldName(i.tag), fields))
  }

  function FoldDictionary(f: Folder, d: Dictionary): (r: Result<Dictionary>)
    decreases d
    ensures r.Ok? ==> KeySet(r.value.fields.entries) == KeySet(d.fields.entries)
    ensures r.Ok? ==> KeySorted(r.value.fields.entries)
  {
    var fields :- FoldFields(f, d.fields);
    Ok(Dictionary.Dictionary(fields))
  }

  /** Folds the name and the term of every field, then collects into a new BTreeMap. */
  function FoldFields(f: Folder, m: TermMap): (r: Result<TermMap>)
    decreases m
    ensures r.Ok? ==> KeySet(r.value.entries) == KeySet(m.entries)
    ensures r.Ok? ==> KeySorted(r.value.entries)
  {
    var entries :- FoldEntries(f, m.entries);
    SameKeysSameKeySet(entries, m.entries);
    Ok(TermMap(Collect(entries)))
  }

  function FoldEntries(f: Folder, es: seq<Field>): (r: Result<seq<Field>>)
    decreases es
    ensures r.Ok? ==> |r.value| == |es|
    ensures r.Ok? ==> forall i :: 0 <= i < |es| ==> r.value[i].key == es[i].key
  {
    if es == [] then Ok([])
    else
      var v :- FoldTerm(f, es[0].value);
      var rest :- FoldEntries(f, es[1..]);
      Ok([Field(FoldName(es[0].key), v)] + rest)
  }

  function FoldPattern(f: Folder, p: Pattern): (r: Result<Pattern>)
    decreases p
    ensures r.Ok? ==> (r.value.Dictionary? <==> p.Dictionary?)
  {
    match p
    case Dictionary(d) =>
      var d' :- FoldDictionary(f, d);
      Ok(Pattern.Dictionary(d'))
    case Instance(i) =>
      var i' :- FoldInstanceLiteral(f, i);
      Ok(Instance(i'))
  }

  function FoldCall(f: Folder, c: Call): (r: Result<Call>)
    decreases c
    ensures r.Ok? ==> r.value.name == c.name
    ensures r.Ok? ==> |r.value.args| == |c.args|
    ensures r.Ok? ==> (r.value.kwargs.Some? <==> c.kwargs.Some?)
  {
    var args :- FoldList(f, c.args);
    var kwargs :- match c.kwargs
      case None => Ok(None)
      case Some(m) => (var m' :- FoldFields(f, m); Ok(Some(m')));
    Ok(Call.Call(FoldName(c.name), args, kwargs))
  }

  function FoldList(f: Folder, l: seq<Term>): (r: Result<seq<Term>>)
    decreases l
    ensures r.Ok? ==> |r.value| == |l|
  {
    if l == [] then Ok([])
    else
      var t :- FoldTerm(f, l[0]);
      var rest :- FoldList(f, l[1..]);
      Ok([t] + rest)
  }

  function FoldOperation(f: Folder, o: Operation): (r: Result<Operation>)
    decreases o
    ensures r.Ok? ==> OperatorHook(f, o.operator) == Ok(r.value.operator)
    ensures r.Ok? ==> |r.value.args| == |o.args|
  {
    var operator :- OperatorHook(f, o.operator);
    var args :- FoldList(f, o.args);
    Ok(Operation(operator, args))
  }

  function FoldParam(f: Folder, p: Parameter): (r: Result<Parameter>)
    ensures r.Ok? ==> r.value.parameter.info == p.parameter.info
    ensures r.Ok? ==> (r.value.specializer.Some? <==> p.specializer.Some?)
  {
    var parameter :- FoldTerm(f, p.parameter);
    var specializer :- FoldOptionalTerm(f, p.specializer);
    Ok(Parameter(parameter, specializer))
  }

  function FoldParams(f: Folder, ps: seq<Parameter>): (r: Result<seq<Parameter>>)
    ensures r.Ok? ==> |r.value| == |ps|
  {
    if ps == [] then Ok([])
    else
      var p :- FoldParam(f, ps[0]);
      var rest :- FoldParams(f, ps[1..]);
      Ok([p] + rest)
  }

  // ---------------------------------------------------------------------
  // Laws of the fold
  // ---------------------------------------------------------------------

  /** `p` holds of every value the fold visits in `t` (the fold does not enter a Partial). */
  ghost predicate EveryTerm(p: Value -> bool, t: Term)
    decreases t
  {
    EveryValue(p, t.value)
  }

  ghost predicate EveryValue(p: Value -> bool, v: Value)
    decreases v
  {
    && p(v)
    && match v
       case ExternalInstance(e) => EveryOptionalTerm(p, e.constructorTerm)
       case InstanceLiteral(i) => EveryField(p, i.fields.fields)
       case Dictionary(d) => EveryField(p, d.fields)
       case Pattern(pt) =>
         (match pt
          case Dictionary(d) => EveryField(p, d.fields)
          case Instance(i) => EveryField(p, i.fields.fields))
       case Call(c) =>
         && EveryList(p, c.args)
         && (match c.kwargs case None => true case Some(m) => EveryField(p, m))
       case List(l) => EveryList(p, l)
       case Expression(o) => EveryList(p, o.args)
       case _ => true
  }

  ghost predicate EveryOptionalTerm(p: Value -> bool, o: Option<Term>)
    decreases o
  {
    match o
    case None => true
    case Some(t) => EveryTerm(p, t)
  }

  ghost predicate EveryList(p: Value -> bool, l: seq<Term>)
    decreases l
  {
    forall i :: 0 <= i < |l| ==> EveryTerm(p, l[i])
  }

  ghost predicate EveryField(p: Value -> bool, m: TermMap)
    decreases m
  {
    forall i :: 0 <= i < |m.entries| ==> EveryTerm(p, m.entries[i].value)
  }

  /** The maps a value holds directly. */
  function MapsOf(v: Value): seq<TermMap>
  {
    match v
    case InstanceLiteral(i) => [i.fields.fields]
    case Dictionary(d) => [d.fields]
    case Pattern(Dictionary(d)) => [d.fields]
    case Pattern(Instance(i)) => [i.fields.fields]
    case Call(c) => (match c.kwargs case None => [] case Some(m) => [m])
    case _ => []
  }

  /** A value the fold accepts as it is: not a Partial, and every map it holds directly
      is in key order, as a BTreeMap is. */
  ghost predicate LocallyFoldable(v: Value)
  {
    && !v.Partial?
    && forall i :: 0 <= i < |MapsOf(v)| ==> KeySorted(MapsOf(v)[i].entries)
  }

  ghost predicate Foldable(t: Term)
  {
    EveryTerm(LocallyFoldable, t)
  }

  /** Identity law: folding with the all-default hooks gives back the same term. */
  lemma {:induction false} TermIdentity(t: Term)
    requires Foldable(t)
    ensures FoldTerm(Trivial, t) == Ok(t)
    decreases t
  {
    ValueIdentity(t.value);
  }

  lemma {:induction false} ValueIdentity(v: Value)
    requires EveryValue(LocallyFoldable, v)
    ensures FoldValue(Trivial, v) == Ok(v)
    decreases v
  {
    match v
    case ExternalInstance(e) =>
      OptionalTermIdentity(e.constructorTerm);
      assert FoldExternalInstance(Trivial, e) == Ok(e);
    case InstanceLiteral(i) =>
      assert MapsOf(v)[0] == i.fields.fields;
      FieldsIdentity(i.fields.fields);
      assert FoldDictionary(Trivial, i.fields) == Ok(i.fields);
      assert FoldInstanceLiteral(Trivial, i) == Ok(i);
    case Dictionary(d) =>
      assert MapsOf(v)[0] == d.fields;
      FieldsIdentity(d.fields);
    case Pattern(pt) =>
      match pt {
        case Dictionary(d) =>
          assert MapsOf(v)[0] == d.fields;
          FieldsIdentity(d.fields);
          assert FoldDictionary(Trivial, d) == Ok(d);
          assert FoldPattern(Trivial, pt) == Ok(pt);
        case Instance(i) =>
          assert MapsOf(v)[0] == i.fields.fields;
          FieldsIdentity(i.fields.fields);
          assert FoldDictionary(Trivial, i.fields) == Ok(i.fields);
          assert FoldInstanceLiteral(Trivial, i) == Ok(i);
          assert FoldPattern(Trivial, pt) == Ok(pt);
      }
    case Call(c) =>
      ListIdentity(c.args);
      match c.kwargs {
        case None =>
        case Some(m) =>
          assert MapsOf(v)[0] == m;
          FieldsIdentity(m);
      }
    case List(l) =>
      ListIdentity(l);
    case Expression(o) =>
      ListIdentity(o.args);
    case _ =>
  }

  /** The leaf hooks return their input under either folder: a number,
      string, boolean, variable or rest variable folds to itself, even when
      inverting. */
  lemma LeavesFoldToThemselves(f: Folder, v: Value)
    requires v.Number? || v.Str? || v.Boolean? || v.Variable? || v.RestVariable?
    ensures FoldValue(f, v) == Ok(v)
  {
  }

  lemma {:induction false} OptionalTermIdentity(o: Option<Term>)
    requires EveryOptionalTerm(LocallyFoldable, o)
    ensures FoldOptionalTerm(Trivial, o) == Ok(o)
    decreases o
  {
    match o
    case None =>
    case Some(t) => TermIdentity(t);
  }

  lemma {:induction false} ListIdentity(l: seq<Term>)
    requires EveryList(LocallyFoldable, l)
    ensures FoldList(Trivial, l) == Ok(l)
    decreases l
  {
    if l != [] {
      TermIdentity(l[0]);
      assert EveryList(LocallyFoldable, l[1..]) by {
        forall i | 0 <= i < |l[1..]| ensures EveryTerm(LocallyFoldable, l[1..][i]) {
          assert l[1..][i] == l[i + 1];
        }
      }
      ListIdentity(l[1..]);
      assert [l[0]] + l[1..] == l;
    }
  }

  lemma {:induction false} FieldsIdentity(m: TermMap)
    requires EveryField(LocallyFoldable, m) && KeySorted(m.entries)
    ensures FoldFields(Trivial, m) == Ok(m)
    decreases m
  {
    EntriesIdentity(m.entries);
    CollectSortedIsIdentity(m.entries);
  }

  lemma {:induction false} EntriesIdentity(es: seq<Field>)
    requires forall i :: 0 <= i < |es| ==> EveryTerm(LocallyFoldable, es[i].value)
    ensures FoldEntries(Trivial, es) == Ok(es)
    decreases es
  {
    if es != [] {
      TermIdentity(es[0].value);
      assert forall i :: 0 <= i < |es[1..]| ==> es[1..][i] == es[i + 1];
      EntriesIdentity(es[1..]);
      assert [Field(es[0].key, es[0].value)] + es[1..] == es;
    }
  }

  /** The identity law on rules: name, parameters and body come back unchanged. */
  lemma {:induction false} RuleIdentity(r: Rule)
    requires forall i :: 0 <= i < |r.params| ==> ParameterFoldable(r.params[i])
    requires Foldable(r.body)
    ensures FoldRule(Trivial, r) == Ok(r)
  {
    ParamsIdentity(r.params);
    TermIdentity(r.body);
  }

  ghost predicate ParameterFoldable(p: Parameter)
  {
    Foldable(p.parameter) && EveryOptionalTerm(LocallyFoldable, p.specializer)
  }

  lemma {:induction false} ParamsIdentity(ps: seq<Parameter>)
    requires forall i :: 0 <= i < |ps| ==> ParameterFoldable(ps[i])
    ensures FoldParams(Trivial, ps) == Ok(ps)
  {
    if ps != [] {
      TermIdentity(ps[0].parameter);
      OptionalTermIdentity(ps[0].specializer);
      assert forall i :: 0 <= i < |ps[1..]| ==> ps[1..][i] == ps[i + 1];
      ParamsIdentity(ps[1..]);
      assert [ps[0]] + ps[1..] == ps;
    }
  }

  /** The fold of a list of a number, a string and a boolean is that same list. */
  lemma FoldScalarList(info: SourceInfo)
    ensures
      var t := Term(info, List([Term(Test, Value.Number(Integer(1))), Term(Test, Str("Hi there!")), Term(Test, Boolean(true))]));
      FoldTerm(Trivial, t) == Ok(t)
  {
    var t := Term(info, List([Term(Test, Value.Number(Integer(1))), Term(Test, Str("Hi there!")), Term(Test, Boolean(true))]));
    assert Foldable(t) by {
      assert forall i :: 0 <= i < |t.value.l| ==> MapsOf(t.value.l[i].value) == [];
    }
    TermIdentity(t);
  }

  /** `fold_list` folds element i into result element i, and succeeds exactly when
      every element folds. */
  lemma {:induction false} FoldListPointwise(f: Folder, l: seq<Term>)
    ensures FoldList(f, l).Ok? <==> forall i :: 0 <= i < |l| ==> FoldTerm(f, l[i]).Ok?
    ensures FoldList(f, l).Ok? ==>
      forall i :: 0 <= i < |l| ==> FoldTerm(f, l[i]) == Ok(FoldList(f, l).value[i])
  {
    if l != [] {
      FoldListPointwise(f, l[1..]);
      assert forall i :: 1 <= i < |l| ==> l[1..][i - 1] == l[i];
    }
  }

  /** `fold_params` folds parameter i into result parameter i. */
  lemma {:induction false} FoldParamsPointwise(f: Folder, ps: seq<Parameter>)
    ensures FoldParams(f, ps).Ok? <==> forall i :: 0 <= i < |ps| ==> FoldParam(f, ps[i]).Ok?
    ensures FoldParams(f, ps).Ok? ==>
      forall i :: 0 <= i < |ps| ==> FoldParam(f, ps[i]) == Ok(FoldParams(f, ps).value[i])
  {
    if ps != [] {
      FoldParamsPointwise(f, ps[1..]);
      assert forall i :: 1 <= i < |ps| ==> ps[1..][i - 1] == ps[i];
    }
  }

  /** With the default `fold_name`, folding a BTreeMap keeps its keys, in order, and
      folds the term under each key in place. */
  lemma {:induction false} FoldFieldsInPlace(f: Folder, m: TermMap)
    requires KeySorted(m.entries)
    ensures FoldFields(f, m).Ok? <==> forall i :: 0 <= i < |m.entries| ==> FoldTerm(f, m.entries[i].value).Ok?
    ensures FoldFields(f, m).Ok? ==>
      var r := FoldFields(f, m).value.entries;
      && |r| == |m.entries|
      && forall i :: 0 <= i < |r| ==> r[i].key == m.entries[i].key && FoldTerm(f, m.entries[i].value) == Ok(r[i].value)
  {
    FoldEntriesPointwise(f, m.entries);
    var es := FoldEntries(f, m.entries);
    if es.Ok? {
      SameKeysSameKeySet(es.value, m.entries);
      CollectSortedIsIdentity(es.value);
    }
  }

  lemma {:induction false} FoldEntriesPointwise(f: Folder, es: seq<Field>)
    ensures FoldEntries(f, es).Ok? <==> forall i :: 0 <= i < |es| ==> FoldTerm(f, es[i].value).Ok?
    ensures FoldEntries(f, es).Ok? ==>
      forall i :: 0 <= i < |es| ==> FoldTerm(f, es[i].value) == Ok(FoldEntries(f, es).value[i].value)
  {
    if es != [] {
      FoldEntriesPointwise(f, es[1..]);
      assert forall i :: 1 <= i < |es| ==> es[1..][i - 1] == es[i];
    }
  }
}
