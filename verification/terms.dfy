/**
 * The term algebra of the Polar resolution engine: terms, values, operations,
 * constraints, rules and bindings. Terms are immutable values; every transform
 * builds a new term.
 *
 * `BTreeMap<Symbol, Term>` is modelled as `TermMap`, a sequence of fields kept
 * in key order, and `collect::<BTreeMap<_, _>>()` as `Collect`, which inserts the
 * fields one by one (a later field with an existing key replaces the value).
 */
module Terms {

  /** A variable, predicate or field name. Names are ordered as strings are in
      Rust: lexicographically, character by character. */
  type Symbol = string

  /** Numbers: 64-bit integers or floats in the engine; here unbounded. */
  datatype Numeric = Integer(i: int) | Float(f: real)

  /** Where a term comes from. Only `Temporary` is told apart by the model:
      it marks the terms the inverter creates with `Term::new_temporary`. */
  datatype SourceInfo = Parser(srcId: nat, left: nat, right: nat) | Temporary | Ffi | Test

  /** A value together with its metadata. */
  datatype Term = Term(info: SourceInfo, value: Value)

  datatype Value =
    | Number(n: Numeric)
    | Str(s: string)
    | Boolean(b: bool)
    | ExternalInstance(e: ExternalInstance)
    | InstanceLiteral(i: InstanceLiteral)
    | Dictionary(d: Dictionary)
    | Pattern(p: Pattern)
    | Call(c: Call)
    | List(l: seq<Term>)
    | Variable(v: Symbol)
    | RestVariable(r: Symbol)
    | Expression(o: Operation)
    | Partial(constraints: Constraints)

  /** A reference to a host object: its id, the term that constructed it and a
      debug representation, the last two optional. */
  datatype ExternalInstance = ExternalInstance(instanceId: nat, constructorTerm: Option<Term>, repr: Option<string>)

  datatype InstanceLiteral = InstanceLiteral(tag: Symbol, fields: Dictionary)

  datatype Dictionary = Dictionary(fields: TermMap)

  /** A specializer pattern. */
  datatype Pattern = Dictionary(d: Dictionary) | Instance(i: InstanceLiteral)

  datatype Call = Call(name: Symbol, args: seq<Term>, kwargs: Option<TermMap>)

  /** The connectives and built-in operators of the policy language. */
  datatype Operator =
    | Debug | Print | Cut | In | Isa | New | Dot | Not
    | Mul | Div | Mod | Rem | Add | Sub
    | Eq | Geq | Leq | Neq | Gt | Lt | Unify | Or | And

  datatype Operation = Operation(operator: Operator, args: seq<Term>)

  /** Everything known so far about one variable that is not yet ground. */
  datatype Constraints = Constraints(variable: Symbol, operations: seq<Operation>)

  datatype Parameter = Parameter(parameter: Term, specializer: Option<Term>)

  datatype Rule = Rule(name: Symbol, params: seq<Parameter>, body: Term)

  /** One entry of a binding trail: a variable and what it is bound to. */
  datatype Binding = Binding(variable: Symbol, value: Term)

  /** A `BTreeMap<Symbol, Term>`: its entries in iteration (key) order. Every
      map the engine builds is `KeySorted` (strictly increasing keys, so no key
      twice); the type does not enforce it, so the laws that need it ask for it. */
  datatype TermMap = TermMap(entries: seq<Field>)

  datatype Field = Field(key: Symbol, value: Term)

  datatype Option<+T> = None | Some(value: T)

  /** Why an operation panics (`todo!`, `expect`, an out-of-range `drain`). */
  datatype Failure =
    | FoldUnsupported(v: Value)
    | NegateUnsupported(op: Operator)
    | MissingBsp
    | DrainOutOfRange(start: nat, len: nat)

  /** The outcome of an operation that may panic. */
  datatype Result<+T> = Ok(value: T) | Panic(failure: Failure) {
    predicate IsFailure() { Panic? }
    function PropagateFailure<U>(): Result<U> requires Panic? { Panic(failure) }
    function Extract(): T requires Ok? { value }
  }

  // ---------------------------------------------------------------------
  // Key order and the BTreeMap that `collect` builds
  // ---------------------------------------------------------------------

  /** Lexicographic order on names. */
  predicate SymbolLess(a: Symbol, b: Symbol)
  {
    if |a| == 0 then |b| > 0
    else if |b| == 0 then false
    else if a[0] < b[0] then true
    else a[0] == b[0] && SymbolLess(a[1..], b[1..])
  }

  lemma {:induction false} SymbolLessIrreflexive(a: Symbol)
    ensures !SymbolLess(a, a)
  {
    if |a| > 0 {
      SymbolLessIrreflexive(a[1..]);
    }
  }

  lemma {:induction false} SymbolLessAsymmetric(a: Symbol, b: Symbol)
    requires SymbolLess(a, b)
    ensures !SymbolLess(b, a) && a != b
  {
    if |a| > 0 && |b| > 0 && a[0] == b[0] {
      SymbolLessAsymmetric(a[1..], b[1..]);
    }
    if a == b {
      SymbolLessIrreflexive(a);
    }
  }

  lemma {:induction false} SymbolLessTransitive(a: Symbol, b: Symbol, c: Symbol)
    requires SymbolLess(a, b) && SymbolLess(b, c)
    ensures SymbolLess(a, c)
  {
    if |a| > 0 && |b| > 0 && |c| > 0 && a[0] == b[0] && b[0] == c[0] {
      SymbolLessTransitive(a[1..], b[1..], c[1..]);
    }
  }

  lemma {:induction false} SymbolLessTotal(a: Symbol, b: Symbol)
    requires a != b
    ensures SymbolLess(a, b) || SymbolLess(b, a)
  {
    if |a| > 0 && |b| > 0 && a[0] == b[0] {
      assert a == [a[0]] + a[1..] && b == [b[0]] + b[1..];
      SymbolLessTotal(a[1..], b[1..]);
    }
  }

  /** The entries are in strictly increasing key order, as a BTreeMap iterates them. */
  ghost predicate KeySorted(es: seq<Field>)
  {
    forall i, j :: 0 <= i < j < |es| ==> SymbolLess(es[i].key, es[j].key)
  }

  function KeySet(es: seq<Field>): set<Symbol>
  {
    set i | 0 <= i < |es| :: es[i].key
  }

  lemma KeySetCons(f: Field, s: seq<Field>)
    ensures KeySet([f] + s) == {f.key} + KeySet(s)
  {
    var fs := [f] + s;
    assert fs[0].key == f.key;
    forall k | k in KeySet(s) ensures k in KeySet(fs) {
      var i :| 0 <= i < |s| && s[i].key == k;
      assert fs[i + 1].key == k;
    }
    forall k | k in KeySet(fs) ensures k == f.key || k in KeySet(s) {
      var i :| 0 <= i < |fs| && fs[i].key == k;
      if i > 0 {
        assert s[i - 1].key == k;
      }
    }
  }

  /** `BTreeMap::insert`: add a field, or replace the value of an existing key. */
  function Insert(m: seq<Field>, e: Field): (r: seq<Field>)
    ensures KeySet(r) == KeySet(m) + {e.key}
  {
    if m == [] then
      assert [e][0].key == e.key;
      [e]
    else
      KeySetCons(m[0], m[1..]);
      assert [m[0]] + m[1..] == m;
      if m[0].key == e.key then
        KeySetCons(Field(m[0].key, e.value), m[1..]);
        [Field(m[0].key, e.value)] + m[1..]
      else if SymbolLess(e.key, m[0].key) then
        KeySetCons(e, m);
        [e] + m
      else
        var rest := Insert(m[1..], e);
        KeySetCons(m[0], rest);
        [m[0]] + rest
  }

  /** What `Insert` leaves in a key-sorted map: the key holds the new value,
      every entry with another key stays, and nothing else is added. */
  lemma {:induction false} InsertContents(m: seq<Field>, e: Field)
    requires KeySorted(m)
    ensures forall i :: 0 <= i < |Insert(m, e)| && Insert(m, e)[i].key == e.key ==> Insert(m, e)[i].value == e.value
    ensures forall i :: 0 <= i < |m| && m[i].key != e.key ==> m[i] in Insert(m, e)
    ensures forall f :: f in Insert(m, e) ==> f.key == e.key || f in m
  {
    if m != [] {
      FirstKeyIsLeast(m);
      if m[0].key == e.key {
      } else if SymbolLess(e.key, m[0].key) {
        BelowFirstKeyIsAbsent(m, e.key);
      } else {
        InsertContents(m[1..], e);
        var rest := Insert(m[1..], e);
        assert Insert(m, e) == [m[0]] + rest;
        forall i | 0 <= i < |m| && m[i].key != e.key ensures m[i] in Insert(m, e) {
          if i > 0 {
            assert m[1..][i - 1] == m[i];
          }
        }
      }
    }
  }

  /** In a key-sorted map the first key is below, and so differs from, every later key. */
  lemma FirstKeyIsLeast(m: seq<Field>)
    requires m != [] && KeySorted(m)
    ensures forall j :: 1 <= j < |m| ==> m[j].key != m[0].key
  {
    {
      forall j | 1 <= j < |m| ensures m[j].key != m[0].key {
        SymbolLessAsymmetric(m[0].key, m[j].key);
      }
    }
  }

  /** A key below the first key of a key-sorted map is not in the map. */
  lemma BelowFirstKeyIsAbsent(m: seq<Field>, k: Symbol)
    requires m != [] && SymbolLess(k, m[0].key) && KeySorted(m)
    ensures forall j :: 0 <= j < |m| ==> m[j].key != k
  {
    SymbolLessAsymmetric(k, m[0].key);
    {
      forall j | 1 <= j < |m| ensures m[j].key != k {
        if m[j].key == k {
          SymbolLessAsymmetric(m[0].key, m[j].key);
        }
      }
    }
  }

  /** Inserting into a key-sorted map keeps it key-sorted. */
  lemma {:induction false} InsertKeepsSorted(m: seq<Field>, e: Field)
    requires KeySorted(m)
    ensures KeySorted(Insert(m, e))
  {
    if m == [] {
    } else if m[0].key == e.key {
    } else if SymbolLess(e.key, m[0].key) {
      forall j | 1 <= j < |m| + 1 ensures SymbolLess(e.key, ([e] + m)[j].key) {
        if j > 1 {
          SymbolLessTransitive(e.key, m[0].key, m[j - 1].key);
        }
      }
    } else {
      SymbolLessTotal(e.key, m[0].key);
      InsertKeepsSorted(m[1..], e);
      var rest := Insert(m[1..], e);
      forall j | 0 <= j < |rest| ensures SymbolLess(m[0].key, rest[j].key) {
        assert rest[j].key in KeySet(rest);
        if rest[j].key != e.key {
          var i :| 0 <= i < |m[1..]| && m[1..][i].key == rest[j].key;
          assert m[i + 1].key == rest[j].key;
        }
      }
    }
  }

  /** Inserting a key greater than every key present appends it. */
  lemma {:induction false} InsertGreatest(m: seq<Field>, e: Field)
    requires forall i :: 0 <= i < |m| ==> SymbolLess(m[i].key, e.key)
    ensures Insert(m, e) == m + [e]
  {
    if m != [] {
      SymbolLessAsymmetric(m[0].key, e.key);
      InsertGreatest(m[1..], e);
      assert [m[0]] + (m[1..] + [e]) == m + [e];
    }
  }

  /** Index j holds the last field of `es` with its key. */
  ghost predicate LastOccurrence(es: seq<Field>, j: int)
  {
    0 <= j < |es| && forall k :: j < k < |es| ==> es[k].key != es[j].key
  }

  /** `f` is the last field of `es` with its key. */
  ghost predicate IsLastOf(es: seq<Field>, f: Field)
  {
    exists j :: LastOccurrence(es, j) && es[j] == f
  }

  /** Every entry of `r` is the last field of `es` with its key. */
  ghost predicate LastValues(es: seq<Field>, r: seq<Field>)
  {
    forall i :: 0 <= i < |r| ==> IsLastOf(es, r[i])
  }

  /** `collect::<BTreeMap<Symbol, Term>>()` over a sequence of fields: a
      key-sorted map with exactly their keys, each holding the value of the
      last field with that key. */
  function Collect(es: seq<Field>): (r: seq<Field>)
    ensures KeySorted(r)
    ensures KeySet(r) == KeySet(es)
    ensures LastValues(es, r)
  {
    if es == [] then []
    else
      var acc := Collect(es[..|es| - 1]);
      InsertKeepsSorted(acc, es[|es| - 1]);
      KeySetInit(es);
      InsertKeepsLast(es, acc);
      Insert(acc, es[|es| - 1])
  }

  lemma KeySetInit(es: seq<Field>)
    requires es != []
    ensures KeySet(es) == KeySet(es[..|es| - 1]) + {es[|es| - 1].key}
  {
    var prefix := es[..|es| - 1];
    assert forall i | 0 <= i < |prefix| :: prefix[i].key == es[i].key;
  }

  /** One step of `Collect`: if every entry of `acc` is the last occurrence of
      its key in all but the last field of `es`, then after inserting that last
      field every entry is the last occurrence of its key in `es`. */
  lemma InsertKeepsLast(es: seq<Field>, acc: seq<Field>)
    requires es != [] && KeySorted(acc)
    requires LastValues(es[..|es| - 1], acc)
    ensures LastValues(es, Insert(acc, es[|es| - 1]))
  {
    var prefix := es[..|es| - 1];
    var e := es[|es| - 1];
    var r := Insert(acc, e);
    InsertContents(acc, e);
    forall i | 0 <= i < |r| ensures IsLastOf(es, r[i]) {
      if r[i].key == e.key {
        assert r[i] == e;
        assert LastOccurrence(es, |prefix|);
      } else {
        assert r[i] in r;
        var i' :| 0 <= i' < |acc| && acc[i'] == r[i];
        assert IsLastOf(prefix, acc[i']);
        var j :| LastOccurrence(prefix, j) && prefix[j] == acc[i'];
        assert es[j] == prefix[j];
        assert LastOccurrence(es, j);
      }
    }
  }

  /** Collecting the entries of a BTreeMap, in their order, rebuilds the same map. */
  lemma {:induction false} CollectSortedIsIdentity(es: seq<Field>)
    requires KeySorted(es)
    ensures Collect(es) == es
  {
    if es != [] {
      var prefix := es[..|es| - 1];
      assert KeySorted(prefix);
      CollectSortedIsIdentity(prefix);
      InsertGreatest(prefix, es[|es| - 1]);
      assert prefix + [es[|es| - 1]] == es;
    }
  }

  /** Two field sequences with the same keys, position by position, have the same key set and order. */
  lemma SameKeysSameKeySet(a: seq<Field>, b: seq<Field>)
    requires |a| == |b| && forall i :: 0 <= i < |a| ==> a[i].key == b[i].key
    ensures KeySet(a) == KeySet(b)
    ensures KeySorted(a) <==> KeySorted(b)
  {
  }
}
