/**
 The CNF value model: a conjunction is an ordered list of disjunctions, a
 disjunction an ordered list of literals, a literal a variable name with a
 negation flag. The builders append in place; the renderers produce the
 parenthesised text with `∧`, `∨` and `¬`.
 */
module Cnf {

  /** A variable or its negation. */
  datatype Literal = Literal(name: string, negated: bool) {

    function GetName(): (n: string) { name }

    function IsNegated(): (b: bool) { negated }
  }

  /** The value held by a disjunction: its literals, in insertion order. */
  type Clause = seq<Literal>

  /** The value held by a conjunction: its disjunctions, in insertion order. */
  type Clauses = seq<Clause>

  const AndSep: string := " ∧ "
  const OrSep: string := " ∨ "

  /** `Literal::new`: the getters give back exactly what was supplied. */
  function NewLiteral(name: string, negated: bool): (l: Literal)
    ensures l.GetName() == name && l.IsNegated() == negated
  {
    Literal(name, negated)
  }

  /** A disjunction under construction. */
  class Disjunction {
    var literals: Clause

    constructor ()
      ensures literals == []
    {
      literals := [];
    }

    /** Ordered append, without deduplication. */
    method AddLiteral(literal: Literal)
      modifies this
      ensures literals == old(literals) + [literal]
    {
      literals := literals + [literal];
    }

    function GetLiterals(): (r: Clause)
      reads this
      ensures r == literals
    {
      literals
    }

    method Fmt() returns (s: string)
      ensures s == DisjunctionText(literals)
    {
      s := FmtDisjunction(literals);
    }
  }

  /** A conjunction under construction; added disjunctions are kept by value. */
  class Conjunction {
    var disjunctions: Clauses

    constructor ()
      ensures disjunctions == []
    {
      disjunctions := [];
    }

    /** Ordered append of the disjunction's current literals, without deduplication. */
    method AddDisjunction(disjunction: Disjunction)
      modifies this
      ensures disjunctions == old(disjunctions) + [disjunction.literals]
    {
      disjunctions := disjunctions + [disjunction.literals];
    }

    function GetDisjunctions(): (r: Clauses)
      reads this
      ensures r == disjunctions
    {
      disjunctions
    }

    method Fmt() returns (s: string)
      ensures s == ConjunctionText(disjunctions)
    {
      s := FmtConjunction(disjunctions);
    }
  }

  // ---------------------------------------------------------------------------
  // Rendering

  /** The text of a literal: it ends with the name, and is one `¬` longer exactly when negated. */
  function LiteralText(l: Literal): (s: string)
    ensures |s| == |l.name| + (if l.negated then 1 else 0)
    ensures s[|s| - |l.name|..] == l.name
    ensures l.negated ==> s[0] == '¬'
  {
    if l.negated then "¬" + l.name else l.name
  }

  /** The parts separated by `sep`, with no separator before the first or after the last. */
  function Join(parts: seq<string>, sep: string): (s: string)
  {
    if |parts| == 0 then ""
    else if |parts| == 1 then parts[0]
    else Join(parts[..|parts| - 1], sep) + sep + parts[|parts| - 1]
  }

  function LiteralTexts(lits: Clause): (texts: seq<string>)
  {
    seq(|lits|, i requires 0 <= i < |lits| => LiteralText(lits[i]))
  }

  function DisjunctionText(lits: Clause): (s: string)
  {
    "(" + Join(LiteralTexts(lits), OrSep) + ")"
  }

  function DisjunctionTexts(f: Clauses): (texts: seq<string>)
  {
    seq(|f|, i requires 0 <= i < |f| => DisjunctionText(f[i]))
  }

  function ConjunctionText(f: Clauses): (s: string)
  {
    "(" + Join(DisjunctionTexts(f), AndSep) + ")"
  }

  /** Extending the joined prefix by one part, as each loop iteration of a renderer does. */
  lemma JoinStep(parts: seq<string>, sep: string, i: nat)
    requires i < |parts|
    ensures Join(parts[..i + 1], sep) == (if i == 0 then "" else Join(parts[..i], sep) + sep) + parts[i]
  {
    assert parts[..i + 1][..i] == parts[..i];
  }

  /** `Display for Disjunction`: the loop writes `delim` then the literal, and sets `delim` to ` ∨ `. */
  method FmtDisjunction(lits: Clause) returns (s: string)
    ensures s == DisjunctionText(lits)
  {
    ghost var texts := LiteralTexts(lits);
    s := "(";
    var delim := "";
    var i := 0;
    while i < |lits|
      invariant 0 <= i <= |lits|
      invariant s == "(" + Join(texts[..i], OrSep)
      invariant delim == if i == 0 then "" else OrSep
    {
      var t := LiteralText(lits[i]);
      JoinStep(texts, OrSep, i);
      s := s + delim + t;
      delim := OrSep;
      i := i + 1;
    }
    assert texts[..i] == texts;
    s := s + ")";
  }

  /** `Display for Conjunction`: the loop writes `delim` then the disjunction, and sets `delim` to ` ∧ `. */
  method FmtConjunction(f: Clauses) returns (s: string)
    ensures s == ConjunctionText(f)
  {
    ghost var texts := DisjunctionTexts(f);
    s := "(";
    var delim := "";
    var i := 0;
    while i < |f|
      invariant 0 <= i <= |f|
      invariant s == "(" + Join(texts[..i], AndSep)
      invariant delim == if i == 0 then "" else AndSep
    {
      var t := FmtDisjunction(f[i]);
      JoinStep(texts, AndSep, i);
      s := s + delim + t;
      delim := AndSep;
      i := i + 1;
    }
    assert texts[..i] == texts;
    s := s + ")";
  }

  // ---------------------------------------------------------------------------
  // Properties of the rendering

  /** An empty disjunction and an empty conjunction both render as `()`. */
  lemma EmptyText()
    ensures DisjunctionText([]) == "()" && ConjunctionText([]) == "()"
  {
  }

  /** The right-leaning reading of Join: the first part, then a separator before each later part. */
  lemma {:induction false} JoinCons(x: string, parts: seq<string>, sep: string)
    requires |parts| > 0
    ensures Join([x] + parts, sep) == x + sep + Join(parts, sep)
    decreases |parts|
  {
    var xs := [x] + parts;
    var n := |parts|;
    if n == 1 {
      assert xs[..1] == [x];
    } else {
      assert xs[..|xs| - 1] == [x] + parts[..n - 1];
      JoinCons(x, parts[..n - 1], sep);
    }
  }

  /** Joining a concatenation puts exactly one separator at the seam. */
  lemma {:induction false} JoinAppend(a: seq<string>, b: seq<string>, sep: string)
    requires |a| > 0 && |b| > 0
    ensures Join(a + b, sep) == Join(a, sep) + sep + Join(b, sep)
    decreases |b|
  {
    var ab := a + b;
    if |b| == 1 {
      assert ab[..|ab| - 1] == a;
    } else {
      var b' := b[..|b| - 1];
      assert ab[..|ab| - 1] == a + b';
      JoinAppend(a, b', sep);
    }
  }

  /** No leading separator: a non-empty join starts with its first part and ends with its last. */
  lemma {:induction false} JoinEnds(parts: seq<string>, sep: string)
    requires |parts| > 0
    ensures |Join(parts, sep)| >= |parts[0]|
    ensures Join(parts, sep)[..|parts[0]|] == parts[0]
    ensures Join(parts, sep)[|Join(parts, sep)| - |parts[|parts| - 1]|..] == parts[|parts| - 1]
    decreases |parts|
  {
    if |parts| > 1 {
      var init := parts[..|parts| - 1];
      JoinEnds(init, sep);
      assert init[0] == parts[0];
      var j := Join(init, sep);
      assert Join(parts, sep) == j + (sep + parts[|parts| - 1]);
      assert (j + (sep + parts[|parts| - 1]))[..|parts[0]|] == j[..|parts[0]|];
    }
  }

  /** Appending one part to a parenthesised join inserts the separator and the part before the `)`. */
  lemma BracketedJoinSnoc(parts: seq<string>, t: string, sep: string)
    ensures var old_s := "(" + Join(parts, sep) + ")";
      "(" + Join(parts + [t], sep) + ")" ==
        if parts == [] then "(" + t + ")"
        else old_s[..|old_s| - 1] + sep + t + ")"
  {
    var all := parts + [t];
    if parts == [] {
      assert all == [t];
    } else {
      assert all[..|all| - 1] == parts;
      assert Join(all, sep) == Join(parts, sep) + sep + t;
      var j := Join(parts, sep);
      var old_s := "(" + j + ")";
      assert old_s[..|old_s| - 1] == "(" + j;
    }
  }

  /** Adding a literal to a disjunction inserts ` ∨ ` and the literal's text before the closing parenthesis. */
  lemma AddLiteralText(lits: Clause, l: Literal)
    ensures var old_s := DisjunctionText(lits);
      DisjunctionText(lits + [l]) ==
        if lits == [] then "(" + LiteralText(l) + ")"
        else old_s[..|old_s| - 1] + OrSep + LiteralText(l) + ")"
  {
    assert LiteralTexts(lits + [l]) == LiteralTexts(lits) + [LiteralText(l)];
    BracketedJoinSnoc(LiteralTexts(lits), LiteralText(l), OrSep);
  }

  /** Adding a disjunction to a conjunction inserts ` ∧ ` and its text before the closing parenthesis. */
  lemma AddDisjunctionText(f: Clauses, d: Clause)
    ensures var old_s := ConjunctionText(f);
      ConjunctionText(f + [d]) ==
        if f == [] then "(" + DisjunctionText(d) + ")"
        else old_s[..|old_s| - 1] + AndSep + DisjunctionText(d) + ")"
  {
    assert DisjunctionTexts(f + [d]) == DisjunctionTexts(f) + [DisjunctionText(d)];
    BracketedJoinSnoc(DisjunctionTexts(f), DisjunctionText(d), AndSep);
  }
}
