/**
 Simplification of a CNF against a partial assignment, and the two triviality
 tests the search stops on. The solver calls `simplify`, `is_trivially_true`
 and `is_trivially_false` on a conjunction, but their code is not part of this
 model, so the definitions here are ASSUMED:
 a disjunction with a satisfied literal is dropped, every other disjunction
 keeps only its unassigned literals; an empty conjunction is trivially true; a
 conjunction holding an empty disjunction is trivially false.
 */
module Simplification {
  import opened Cnf

  /** The variable-to-value map the solver builds. */
  type Assignment = map<string, bool>

  /** `m` gives the literal's variable the value that makes it true. */
  predicate Satisfied(l: Literal, m: Assignment)
  {
    l.name in m && m[l.name] == !l.negated
  }

  predicate ClauseSatisfied(c: Clause, m: Assignment)
  {
    exists l :: l in c && Satisfied(l, m)
  }

  /** Every disjunction has a literal made true by `m`. */
  ghost predicate Models(m: Assignment, f: Clauses)
  {
    forall c :: c in f ==> ClauseSatisfied(c, m)
  }

  /** Everything `m` says, `m'` says too: keys are kept and so are their values. */
  ghost predicate Extends(m: Assignment, m': Assignment)
  {
    forall x :: x in m ==> x in m' && m'[x] == m[x]
  }

  /** The literals whose variable `m` leaves unassigned, in order. */
  function Unassigned(c: Clause, m: Assignment): (kept: Clause)
  {
    if c == [] then []
    else (if c[0].name in m then [] else [c[0]]) + Unassigned(c[1..], m)
  }

  /** ASSUMED `Conjunction::simplify`. */
  function Simplify(f: Clauses, m: Assignment): (s: Clauses)
  {
    if f == [] then []
    else if ClauseSatisfied(f[0], m) then Simplify(f[1..], m)
    else [Unassigned(f[0], m)] + Simplify(f[1..], m)
  }

  /** ASSUMED `Conjunction::is_trivially_true`: no disjunction is left. */
  predicate IsTriviallyTrue(f: Clauses)
  {
    |f| == 0
  }

  /** ASSUMED `Conjunction::is_trivially_false`: some disjunction is empty. */
  predicate IsTriviallyFalse(f: Clauses)
  {
    exists i :: 0 <= i < |f| && f[i] == []
  }

  ghost function Names(c: Clause): (names: set<string>)
  {
    if c == [] then {} else {c[0].name} + Names(c[1..])
  }

  /** The variables occurring in a CNF. */
  ghost function Vars(f: Clauses): (vars: set<string>)
  {
    if f == [] then {} else Names(f[0]) + Vars(f[1..])
  }

  // ---------------------------------------------------------------------------
  // Properties

  lemma {:induction false} NamesMember(c: Clause, l: Literal)
    requires l in c
    ensures l.name in Names(c)
    decreases |c|
  {
    if c[0] != l {
      NamesMember(c[1..], l);
    }
  }

  lemma {:induction false} VarsMember(f: Clauses, i: nat, l: Literal)
    requires i < |f| && l in f[i]
    ensures l.name in Vars(f)
    decreases i
  {
    if i == 0 {
      NamesMember(f[0], l);
    } else {
      VarsMember(f[1..], i - 1, l);
    }
  }

  /** The kept literals are exactly those of `c` whose variable is unassigned. */
  lemma {:induction false} UnassignedMembers(c: Clause, m: Assignment)
    ensures forall l :: l in Unassigned(c, m) <==> l in c && l.name !in m
    ensures Names(Unassigned(c, m)) == Names(c) - m.Keys
    decreases |c|
  {
    if c != [] {
      UnassignedMembers(c[1..], m);
      assert c == [c[0]] + c[1..];
      var r := Unassigned(c[1..], m);
      if c[0].name !in m {
        var u := [c[0]] + r;
        assert u[0] == c[0] && u[1..] == r;
      } else {
        assert Unassigned(c, m) == [] + r == r;
      }
    }
  }

  /** Simplification leaves only unassigned variables, all taken from the input. */
  lemma {:induction false} SimplifyVars(f: Clauses, m: Assignment)
    ensures Vars(Simplify(f, m)) <= Vars(f) - m.Keys
    decreases |f|
  {
    if f != [] {
      SimplifyVars(f[1..], m);
      if !ClauseSatisfied(f[0], m) {
        UnassignedMembers(f[0], m);
        var s := Simplify(f, m);
        assert s[0] == Unassigned(f[0], m) && s[1..] == Simplify(f[1..], m);
      }
    }
  }

  /** Assigning a variable that occurs in `f` strictly shrinks the variables left after simplifying. */
  lemma SimplifyShrinks(f: Clauses, m: Assignment, x: string)
    requires x in Vars(f) && x in m
    ensures |Vars(Simplify(f, m))| < |Vars(f)|
  {
    SimplifyVars(f, m);
    var rest := Vars(f) - {x};
    assert Vars(Simplify(f, m)) <= rest;
    SubsetCard(Vars(Simplify(f, m)), rest);
  }

  lemma {:induction false} SubsetCard(a: set<string>, b: set<string>)
    requires a <= b
    ensures |a| <= |b|
    decreases |b|
  {
    if b != {} {
      var y :| y in b;
      SubsetCard(a - {y}, b - {y});
    }
  }

  /**
   Simplification preserves meaning under every extension of the map: an
   assignment that extends `m` models `f` exactly when it models `Simplify(f, m)`.
   */
  lemma {:induction false} SimplifyModels(f: Clauses, m: Assignment, m': Assignment)
    requires Extends(m, m')
    ensures Models(m', f) <==> Models(m', Simplify(f, m))
    decreases |f|
  {
    if f != [] {
      SimplifyModels(f[1..], m, m');
      var c := f[0];
      assert forall d :: d in f <==> d == c || d in f[1..];
      if ClauseSatisfied(c, m) {
        var l :| l in c && Satisfied(l, m);
        assert Satisfied(l, m');
      } else {
        var u := Unassigned(c, m);
        UnassignedMembers(c, m);
        var s := Simplify(f, m);
        assert forall d :: d in s <==> d == u || d in Simplify(f[1..], m);
        if ClauseSatisfied(c, m') {
          var l :| l in c && Satisfied(l, m');
          assert l.name !in m;
          assert l in u;
        }
        if ClauseSatisfied(u, m') {
          var l :| l in u && Satisfied(l, m');
          assert l in c;
        }
      }
    }
  }

  /** Simplifying twice under the same map changes nothing more. */
  lemma {:induction false} SimplifyIdempotent(f: Clauses, m: Assignment)
    ensures Simplify(Simplify(f, m), m) == Simplify(f, m)
    decreases |f|
  {
    if f != [] {
      SimplifyIdempotent(f[1..], m);
      if !ClauseSatisfied(f[0], m) {
        var u := Unassigned(f[0], m);
        UnassignedMembers(f[0], m);
        UnassignedFixed(u, m);
        assert !ClauseSatisfied(u, m);
        var s := Simplify(f, m);
        assert s[0] == u && s[1..] == Simplify(f[1..], m);
      }
    }
  }

  lemma {:induction false} UnassignedFixed(c: Clause, m: Assignment)
    requires forall l :: l in c ==> l.name !in m
    ensures Unassigned(c, m) == c
    decreases |c|
  {
    if c != [] {
      UnassignedFixed(c[1..], m);
    }
  }

  /** Once every variable is assigned, simplification reaches one of the two fixed points. */
  lemma {:induction false} SimplifyFullyAssigned(f: Clauses, m: Assignment)
    requires Vars(f) <= m.Keys
    ensures var s := Simplify(f, m); IsTriviallyTrue(s) || IsTriviallyFalse(s)
  {
    SimplifyVars(f, m);
    var s := Simplify(f, m);
    if s != [] {
      assert s[0] == [];
    }
  }
}
