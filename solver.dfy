/**
 The DPLL search. A solver owns one CNF and one assignment map; the search
 simplifies the CNF against the map, stops when it is trivially true or
 trivially false, and otherwise assigns the variable of the first literal the
 value that satisfies it, recurses, and on failure overwrites that same key
 with the opposite value and recurses once more. The map is shared by both
 branches and never undone: what a failed branch assigned stays behind.
 */
module Dpll {
  import opened Cnf
  import opened Simplification

  /** Some disjunction has at least one literal. */
  predicate HasLiteral(f: Clauses)
  {
    exists i :: 0 <= i < |f| && f[i] != []
  }

  /** The position of the first non-empty disjunction. */
  function FirstClauseIndex(f: Clauses): (i: nat)
    requires HasLiteral(f)
    ensures i < |f| && f[i] != []
    ensures forall k :: 0 <= k < i ==> f[k] == []
    decreases |f|
  {
    if f[0] != [] then 0
    else
      assert HasLiteral(f[1..]) by {
        var j :| 0 <= j < |f| && f[j] != [];
        assert f[1..][j - 1] == f[j];
      }
      1 + FirstClauseIndex(f[1..])
  }

  /** The first literal in disjunction-then-literal order. */
  function FirstLiteral(f: Clauses): (l: Literal)
    requires HasLiteral(f)
  {
    f[FirstClauseIndex(f)][0]
  }

  /**
   When the simplified formula is neither trivially true nor trivially false,
   its first disjunction has a literal, so the choice never reaches the panic;
   the chosen variable occurs in the formula and is not yet assigned.
   */
  lemma ChoiceExists(f: Clauses, m: Assignment)
    requires var s := Simplify(f, m); !IsTriviallyTrue(s) && !IsTriviallyFalse(s)
    ensures var s := Simplify(f, m);
      && HasLiteral(s) && FirstClauseIndex(s) == 0
      && FirstLiteral(s).name in Vars(s)
      && FirstLiteral(s).name !in m
  {
    var s := Simplify(f, m);
    assert s[0] != [];
    VarsMember(s, 0, s[0][0]);
    SimplifyVars(f, m);
  }

  /**
   The search as a function of the CNF and the map on entry: whether it
   succeeds, and the map it leaves behind.
   */
  ghost function Search(f: Clauses, m: Assignment): (result: (bool, Assignment))
    decreases |Vars(Simplify(f, m))|
  {
    var s := Simplify(f, m);
    if IsTriviallyTrue(s) then (true, m)
    else if IsTriviallyFalse(s) then (false, m)
    else
      ChoiceExists(f, m);
      var l := FirstLiteral(s);
      var m1 := m[l.name := !l.negated];
      SimplifyShrinks(s, m1, l.name);
      var first := Search(s, m1);
      if first.0 then first
      else
        var m2 := first.1[l.name := l.negated];
        SimplifyShrinks(s, m2, l.name);
        Search(s, m2)
  }

  class Solver {
    var formula: Clauses
    var assignments: Assignment

    /** The CNF comes already encoded; the map starts empty. */
    constructor (cnf: Conjunction)
      ensures formula == cnf.disjunctions
      ensures assignments == map[]
    {
      formula := cnf.disjunctions;
      assignments := map[];
    }

    function GetAssignments(): (m: Assignment)
      reads this
      ensures m == assignments
    {
      assignments
    }

    /**
     Simplifies the stored CNF against the current map and searches. On
     success the final map makes every disjunction of the stored CNF true.
     */
    method IsSatisfiable() returns (sat: bool)
      modifies this
      ensures formula == old(formula)
      ensures (sat, assignments) == Search(Simplify(formula, old(assignments)), old(assignments))
      ensures Extends(old(assignments), assignments)
      ensures sat ==> Models(assignments, formula)
    {
      var simpl := Simplify(formula, assignments);
      ghost var m0 := assignments;
      sat := RunDpll(simpl);
      SearchExtends(simpl, m0);
      SearchSound(simpl, m0);
      if sat {
        SimplifyModels(formula, m0, assignments);
      }
    }

    method RunDpll(f: Clauses) returns (sat: bool)
      modifies this
      decreases |Vars(Simplify(f, assignments))|
      ensures formula == old(formula)
      ensures (sat, assignments) == Search(f, old(assignments))
      ensures IsTriviallyTrue(Simplify(f, old(assignments))) ==> sat && assignments == old(assignments)
      ensures !IsTriviallyTrue(Simplify(f, old(assignments))) && IsTriviallyFalse(Simplify(f, old(assignments)))
              ==> !sat && assignments == old(assignments)
    {
      var simpl := Simplify(f, assignments);
      if IsTriviallyTrue(simpl) {
        sat := true;
      } else if IsTriviallyFalse(simpl) {
        sat := false;
      } else {
        ChoiceExists(f, assignments);
        var variable, value := ChooseVariable(simpl);
        SetVariable(variable, value);
        SimplifyShrinks(simpl, assignments, variable);
        sat := RunDpll(simpl);
        if !sat {
          SetVariable(variable, !value);
          SimplifyShrinks(simpl, assignments, variable);
          sat := RunDpll(simpl);
        }
      }
    }

    /** Inserts or overwrites one key; every other key and value stays as it was. */
    method SetVariable(name: string, value: bool)
      modifies this
      ensures formula == old(formula)
      ensures assignments == old(assignments)[name := value]
      ensures assignments.Keys == old(assignments).Keys + {name}
    {
      assignments := assignments[name := value];
    }

    /** The first literal's variable, with the value that satisfies that literal. */
    static method ChooseVariable(f: Clauses) returns (name: string, value: bool)
      requires HasLiteral(f)
      ensures name == FirstLiteral(f).name && value == !FirstLiteral(f).negated
      ensures Satisfied(FirstLiteral(f), map[name := value])
    {
      var i := 0;
      while i < |f|
        invariant 0 <= i <= |f|
        invariant forall k :: 0 <= k < i ==> f[k] == []
      {
        var lits := f[i];
        for j := 0 to |lits|
          invariant j == 0
        {
          return lits[j].name, !lits[j].negated;
        }
        i := i + 1;
      }
      assert false;
    }
  }

  // ---------------------------------------------------------------------------
  // Properties of the search

  /**
   Nothing the search finds in the map on entry is removed or changed: keys
   only grow, and the only key ever overwritten is one the search itself chose.
   */
  lemma {:induction false} SearchExtends(f: Clauses, m: Assignment)
    ensures Extends(m, Search(f, m).1)
    decreases |Vars(Simplify(f, m))|
  {
    var s := Simplify(f, m);
    if !IsTriviallyTrue(s) && !IsTriviallyFalse(s) {
      ChoiceExists(f, m);
      var l := FirstLiteral(s);
      var m1 := m[l.name := !l.negated];
      SimplifyShrinks(s, m1, l.name);
      SearchExtends(s, m1);
      var first := Search(s, m1);
      if !first.0 {
        var m2 := first.1[l.name := l.negated];
        SimplifyShrinks(s, m2, l.name);
        SearchExtends(s, m2);
      }
    }
  }

  /**
   The only keys the search inserts are variables of the simplified CNF it
   starts from: it chooses variables there and nowhere else.
   */
  lemma {:induction false} SearchKeys(f: Clauses, m: Assignment)
    ensures Search(f, m).1.Keys <= m.Keys + Vars(Simplify(f, m))
    decreases |Vars(Simplify(f, m))|
  {
    var s := Simplify(f, m);
    if !IsTriviallyTrue(s) && !IsTriviallyFalse(s) {
      ChoiceExists(f, m);
      var l := FirstLiteral(s);
      var bound := m.Keys + Vars(s);
      var m1 := m[l.name := !l.negated];
      assert m1.Keys <= bound;
      SimplifyShrinks(s, m1, l.name);
      var first := Search(s, m1);
      assert first.1.Keys <= bound by {
        SearchKeys(s, m1);
        SimplifyVars(s, m1);
      }
      if first.0 {
        assert Search(f, m) == first;
      } else {
        var m2 := first.1[l.name := l.negated];
        assert m2.Keys <= bound;
        SimplifyShrinks(s, m2, l.name);
        assert Search(s, m2).1.Keys <= bound by {
          SearchKeys(s, m2);
          SimplifyVars(s, m2);
        }
        assert Search(f, m) == Search(s, m2);
      }
    }
  }

  /** Soundness: when the search succeeds, its final map makes every disjunction of `f` true. */
  lemma {:induction false} SearchSound(f: Clauses, m: Assignment)
    ensures Search(f, m).0 ==> Models(Search(f, m).1, f)
    decreases |Vars(Simplify(f, m))|
  {
    var s := Simplify(f, m);
    if IsTriviallyTrue(s) {
      SimplifyModels(f, m, m);
    } else if !IsTriviallyFalse(s) {
      ChoiceExists(f, m);
      var l := FirstLiteral(s);
      var m1 := m[l.name := !l.negated];
      SimplifyShrinks(s, m1, l.name);
      SearchSound(s, m1);
      SearchExtends(s, m1);
      var first := Search(s, m1);
      if first.0 {
        SimplifyModels(f, m, first.1);
      } else {
        var m2 := first.1[l.name := l.negated];
        SimplifyShrinks(s, m2, l.name);
        SearchSound(s, m2);
        SearchExtends(s, m2);
        SimplifyModels(f, m, Search(s, m2).1);
      }
    }
  }

  /**
   The branching rule: the first branch tries the value that satisfies the
   first literal; if it succeeds that value stands, otherwise the same key is
   overwritten with the opposite value, in the map the first branch left
   behind, and the second branch decides.
   */
  lemma BranchRule(f: Clauses, m: Assignment)
    requires var s := Simplify(f, m); !IsTriviallyTrue(s) && !IsTriviallyFalse(s)
    ensures var s := Simplify(f, m);
      HasLiteral(s) &&
      var l := FirstLiteral(s);
      var first := Search(s, m[l.name := !l.negated]);
      if first.0 then
        Search(f, m) == first && l.name in first.1 && first.1[l.name] == !l.negated
      else
        Search(f, m) == Search(s, first.1[l.name := l.negated])
        && l.name in Search(f, m).1 && Search(f, m).1[l.name] == l.negated
  {
    var s := Simplify(f, m);
    ChoiceExists(f, m);
    var l := FirstLiteral(s);
    var m1 := m[l.name := !l.negated];
    SimplifyShrinks(s, m1, l.name);
    SearchExtends(s, m1);
    var first := Search(s, m1);
    if !first.0 {
      var m2 := first.1[l.name := l.negated];
      SimplifyShrinks(s, m2, l.name);
      SearchExtends(s, m2);
    }
  }

  // ---------------------------------------------------------------------------
  // The shared map makes the search incomplete

  const X: Literal := Literal("x", false)
  const NX: Literal := Literal("x", true)
  const Y: Literal := Literal("y", false)
  const NY: Literal := Literal("y", true)

  /** (x ∨ y) ∧ (¬x ∨ y) ∧ (¬x ∨ ¬y), satisfied by x = false, y = true. */
  const Example: Clauses := [[X, Y], [NX, Y], [NX, NY]]

  /** With x = true, only (y) ∧ (¬y) is left. */
  const ExampleAfterX: Clauses := [[Y], [NY]]

  lemma ExampleStart()
    ensures Simplify(Example, map[]) == Example
    ensures HasLiteral(Example) && FirstLiteral(Example) == X
  {
    var f, empty := Example, map[];
    UnassignedFixed(f[0], empty);
    UnassignedFixed(f[1], empty);
    UnassignedFixed(f[2], empty);
    assert f[1..][1..] == [f[2]] && [f[2]][1..] == [];
    assert Simplify(f[1..][1..], empty) == [f[2]];
    assert Simplify(f[1..], empty) == f[1..];
    assert f[0] != [];
  }

  lemma ExampleSimplifyX()
    ensures Simplify(Example, map["x" := true]) == ExampleAfterX
    ensures HasLiteral(ExampleAfterX) && FirstLiteral(ExampleAfterX) == Y
  {
    var f, mx := Example, map["x" := true];
    assert Satisfied(X, mx);
    assert !ClauseSatisfied([NX, NY], mx) && !ClauseSatisfied([NX, Y], mx);
    assert "y" !in mx;
    assert [NX, Y][1..] == [Y] && [NX, NY][1..] == [NY];
    assert Unassigned([Y], mx) == [Y] by { assert [Y][1..] == []; }
    assert Unassigned([NY], mx) == [NY] by { assert [NY][1..] == []; }
    assert Unassigned([NX, NY], mx) == [NY] && Unassigned([NX, Y], mx) == [Y];
    assert Simplify(f[1..][1..], mx) == [[NY]];
    assert Simplify(f[1..], mx) == ExampleAfterX;
    assert ExampleAfterX[0] != [];
  }

  lemma ExampleYTrue()
    ensures var m := map["x" := true, "y" := true]; Search(ExampleAfterX, m) == (false, m)
  {
    var s1, m := ExampleAfterX, map["x" := true, "y" := true];
    assert Satisfied(Y, m);
    assert s1[1..] == [[NY]] && !ClauseSatisfied([NY], m);
    assert Unassigned([NY], m) == [] by { assert [NY][1..] == []; }
    assert [[NY]][1..] == [];
    assert Simplify(s1[1..], m) == [[]];
    assert Simplify(s1, m) == [[]];
  }

  lemma ExampleYFalse()
    ensures var m := map["x" := true, "y" := false]; Search(ExampleAfterX, m) == (false, m)
  {
    var s1, m := ExampleAfterX, map["x" := true, "y" := false];
    assert Satisfied(NY, m) && !ClauseSatisfied([Y], m);
    assert Unassigned([Y], m) == [] by { assert [Y][1..] == []; }
    assert s1[1..] == [[NY]] && [[NY]][1..] == [];
    assert Simplify(s1[1..], m) == [];
    assert Simplify(s1, m) == [[]];
  }

  /** The branch x = true fails and leaves y = false in the map. */
  lemma ExampleFirstBranch()
    ensures Search(Example, map["x" := true]) == (false, map["x" := true, "y" := false])
  {
    ExampleSimplifyX();
    ExampleYTrue();
    ExampleYFalse();
    var mx: Assignment := map["x" := true];
    assert mx[Y.name := !Y.negated] == map["x" := true, "y" := true];
    assert map["x" := true, "y" := true][Y.name := Y.negated] == map["x" := true, "y" := false];
  }

  /** With x = false and the stale y = false, (x ∨ y) is falsified. */
  lemma ExampleSecondBranch()
    ensures var m := map["x" := false, "y" := false]; Search(Example, m) == (false, m)
  {
    var f, m := Example, map["x" := false, "y" := false];
    assert Satisfied(NX, m) && Satisfied(NY, m);
    assert !ClauseSatisfied([X, Y], m);
    assert Unassigned([Y], m) == [] by { assert [Y][1..] == []; }
    assert Unassigned([X, Y], m) == [] by { assert [X, Y][1..] == [Y]; }
    assert f[1..][1..] == [[NX, NY]] && [[NX, NY]][1..] == [];
    assert Simplify(f[1..][1..], m) == [];
    assert Simplify(f[1..], m) == [];
    assert Simplify(f, m) == [[]];
  }

  /**
   Because both branches share one map, a failed branch's assignments restrict
   its sibling: the example is satisfiable, yet the search from an empty map
   reports it unsatisfiable.
   */
  lemma SharedMapIncomplete()
    ensures Models(map["x" := false, "y" := true], Example)
    ensures !Search(Example, map[]).0
  {
    var model := map["x" := false, "y" := true];
    assert Satisfied(Y, model) && Satisfied(NX, model);
    assert forall c :: c in Example ==> c == Example[0] || c == Example[1] || c == Example[2];
    ExampleStart();
    ExampleFirstBranch();
    ExampleSecondBranch();
    var empty: Assignment := map[];
    assert empty[X.name := !X.negated] == map["x" := true];
    assert map["x" := true, "y" := false][X.name := X.negated] == map["x" := false, "y" := false];
  }
}
