# RAT: CNF values and DPLL search, modelled in Dafny

This project models the two core parts of a small propositional satisfiability
checker.

- **The CNF value model** (`cnf.dfy`, module `Cnf`):
  - a `Literal` is a variable name with a `negated` flag;
  - a `Disjunction` is an ordered list of literals;
  - a `Conjunction` is an ordered list of disjunctions.

  The two list types are classes whose builders append in place. The renderers
  are methods that loop over the elements while updating a `delim` variable.
  Each renderer is proved equal to a pure specification built on `Join`, which
  joins parts with a separator.
- **The DPLL search** (`solver.dfy`, module `Dpll`): a `Solver` class that owns
  one CNF and one `map<string, bool>` of assignments, which it updates in
  place.
  - `RunDpll` is the recursive backtracking search. It is proved equal to the
    ghost function `Search`, which gives the verdict and the final map as a
    function of the CNF and the map on entry.
  - The lemmas about `Search` state:
    - the map only grows, entries already present on entry keep their
      values, and the only keys added are variables of the simplified CNF;
    - the branching rule;
    - soundness: on success, the final map satisfies every disjunction of the
      CNF;
    - a concrete formula on which the search is incomplete.
- **Simplification** (`simplify.dfy`, module `Simplification`): the solver calls
  `Conjunction::simplify`, `is_trivially_true` and `is_trivially_false`, but
  their code is not part of this model. The definitions here are ASSUMED, not
  taken from code:
  - `simplify` drops every disjunction that has a literal satisfied by the map;
    each remaining disjunction keeps only the literals whose variable is not in
    the map, in their original order;
  - trivially true means no disjunctions are left;
  - trivially false means some disjunction is empty.

  Under these definitions the module proves:
  - simplifying does not change which maps extending the current one satisfy
    the CNF;
  - simplifying is idempotent;
  - it removes every assigned variable.

`RunDpll` and `Search` use `|Vars(Simplify(f, m))|` as their `decreases`
measure: the number of variables left after simplifying. The variable chosen
at each step occurs in the simplified CNF. Once it is assigned, simplifying
again removes it, so the measure shrinks on both recursive calls.

The search shares one map between its two branches and never undoes an
assignment. The model keeps this behaviour. `Dpll.SharedMapIncomplete` shows
its consequence. The formula (x ∨ y) ∧ (¬x ∨ y) ∧ (¬x ∨ ¬y) is satisfied by
x = false, y = true, yet the search from an empty map reports it
unsatisfiable. The failed branch x = true leaves y = false behind.

The doc comment on `is_satisfiable` (src/solver.rs:23-24) promises that when the
formula is satisfiable, a sufficient set of assignments is determined. The code's
shared map makes the search sound but not complete, and soundness is what is
proved.

## Model

| member | source | states |
|---|---|---|
| Cnf.NewLiteral | src/cnf.rs:86-99 | `get_name` and `is_negated` on a new literal give back exactly the name and flag it was built from |
| Cnf.Disjunction.constructor | src/cnf.rs:48-52 | a new disjunction has no literals |
| Cnf.Disjunction.AddLiteral | src/cnf.rs:54-56 | the literal is appended at the end; earlier literals are unchanged and in order; nothing is deduplicated |
| Cnf.Disjunction.GetLiterals | src/cnf.rs:58-60 | returns the stored literal sequence unchanged; reading it modifies nothing |
| Cnf.Disjunction.Fmt | src/cnf.rs:63-75 | the rendering of the stored literals is their `DisjunctionText` |
| Cnf.Conjunction.constructor | src/cnf.rs:11-15 | a new conjunction has no disjunctions |
| Cnf.Conjunction.AddDisjunction | src/cnf.rs:17-19 | the disjunction's literals are appended as one new last element; earlier disjunctions are unchanged and in order; nothing is deduplicated |
| Cnf.Conjunction.GetDisjunctions | src/cnf.rs:21-23 | returns the stored disjunction sequence unchanged; reading it modifies nothing |
| Cnf.Conjunction.Fmt | src/cnf.rs:26-38 | the rendering of the stored disjunctions is their `ConjunctionText` |
| Cnf.LiteralText | src/cnf.rs:102-108 | a literal's text ends with its name; it is one character longer, starting with `¬`, exactly when the literal is negated |
| Cnf.FmtDisjunction | src/cnf.rs:63-75 | the loop that writes `delim` before each literal, using `""` first and `" ∨ "` after that, produces `"("` + the literal texts joined by `" ∨ "` + `")"` |
| Cnf.FmtConjunction | src/cnf.rs:26-38 | the loop that writes `delim` before each disjunction, using `""` first and `" ∧ "` after that, produces `"("` + the disjunction texts joined by `" ∧ "` + `")"` |
| Cnf.EmptyText | src/cnf.rs:26-38 | an empty conjunction and an empty disjunction both render as `()` |
| Cnf.JoinCons | src/cnf.rs:66-71 | joined from the front, the text is the first part, then the separator, then the rest joined |
| Cnf.JoinAppend | src/cnf.rs:66-71 | joining two non-empty runs of parts puts exactly one separator between them |
| Cnf.JoinEnds | src/cnf.rs:66-71 | no leading or trailing separator: a non-empty join starts with its first part and ends with its last |
| Cnf.AddLiteralText | src/cnf.rs:54-75 | after adding a literal, the disjunction's text is the old text with ` ∨ ` and the literal's text inserted before the closing parenthesis (with no ` ∨ ` when it was empty) |
| Cnf.AddDisjunctionText | src/cnf.rs:17-38 | after adding a disjunction, the conjunction's text is the old text with ` ∧ ` and the disjunction's text inserted before the closing parenthesis (with no ` ∧ ` when it was empty) |
| Simplification.SimplifyVars | src/solver.rs:33 | (assumed simplify) the simplified CNF mentions only variables of the input that the map leaves unassigned |
| Simplification.SimplifyShrinks | src/solver.rs:33-42 | (assumed simplify) once a variable occurring in the CNF is assigned, strictly fewer variables remain after simplifying |
| Simplification.SimplifyModels | src/solver.rs:26-33 | (assumed simplify) a map that extends the current one satisfies the CNF exactly when it satisfies the simplified CNF |
| Simplification.SimplifyIdempotent | src/solver.rs:26-33 | (assumed simplify) simplifying again under the same map changes nothing, so `run_dpll` simplifying `is_satisfiable`'s result again is harmless |
| Simplification.SimplifyFullyAssigned | src/solver.rs:33-38 | (assumed simplify) once every variable is assigned, the simplified CNF is trivially true or trivially false |
| Dpll.FirstClauseIndex | src/solver.rs:63-64 | the index of the first disjunction that has a literal; every disjunction before it is empty |
| Dpll.ChoiceExists | src/solver.rs:35-41 | when the simplified CNF is neither trivially true nor trivially false, its first disjunction is non-empty, so the `panic!` is unreachable; the chosen variable occurs in the simplified CNF and is not yet in the map |
| Dpll.Solver.ChooseVariable | src/solver.rs:61-69 | requires some literal to exist, since otherwise the source panics; returns the name of the first literal in disjunction-then-literal order, with value `!negated`, which satisfies that literal |
| Dpll.Solver.constructor | src/solver.rs:12-17 | stores the given CNF; the assignment map starts empty |
| Dpll.Solver.GetAssignments | src/solver.rs:19-21 | returns the assignment map unchanged; reading it modifies nothing |
| Dpll.Solver.SetVariable | src/solver.rs:56-58 | `assignments[name] == value`; every other key and value is unchanged; the key set grows by `name` at most |
| Dpll.Solver.RunDpll | src/solver.rs:31-53 | the verdict and final map are `Search` of the argument and the map on entry; when trivially true it returns true, and when trivially false it returns false, both without touching the map; the stored CNF is unchanged |
| Dpll.Solver.IsSatisfiable | src/solver.rs:23-28 | on true, every disjunction of the stored CNF has a literal made true by the final map; entries already in the map keep their values; the stored CNF is unchanged |
| Dpll.SearchExtends | src/solver.rs:42-57 | during a solve the map only grows: every key present on entry is still there with its value, so only keys absent on entry are inserted or overwritten |
| Dpll.SearchKeys | src/solver.rs:41-49 | the only keys a solve adds are variables of the simplified CNF it starts from, since those are the only variables it chooses |
| Dpll.SearchSound | src/solver.rs:23-53 | soundness: when the search returns true, its final map satisfies every disjunction of the CNF it was given |
| Dpll.BranchRule | src/solver.rs:41-51 | the first branch assigns the chosen variable the value satisfying the first literal. If it succeeds, that value stands and true is returned. Otherwise the same key is overwritten with the opposite value in the map the first branch left behind. The second branch's result is returned, and the key ends with that opposite value |
| Dpll.SharedMapIncomplete | src/solver.rs:42-51 | because sibling branches share one map, (x ∨ y) ∧ (¬x ∨ y) ∧ (¬x ∨ ¬y) is reported unsatisfiable although x = false, y = true satisfies it |

## Left out

- `Formula::get_cnf`, the Tseytin encoding that `Solver::new` calls, is not part of this model. The solver is built from an already-encoded `Conjunction`.
- `Conjunction::simplify`, `is_trivially_true` and `is_trivially_false` are not part of this model. Their definitions in `simplify.dfy` are assumed, as described above.
- `src/formula.rs` only declares the formula type, which nothing modelled here uses. `src/main.rs` is a demo entry point that prints.
- Completeness is not proved, because it is false for the shared-map search. `Dpll.SharedMapIncomplete` shows why.
- `HashMap` hashing and iteration order are not observable. The map is a Dafny `map`.
- Errors when writing to `fmt::Formatter` (the `?` propagation) are not modelled. Rendering is modelled as building a string, which cannot fail.
- Recursion depth and stack exhaustion are runtime resource limits, not modelled behaviour.
- Ownership is not modelled. In `Cnf.Conjunction.AddDisjunction`, Rust moves the disjunction into the conjunction, so it cannot be changed afterwards. Dafny has no ownership, so the model copies the disjunction's current literals instead. The stored value therefore cannot change through the original object.
