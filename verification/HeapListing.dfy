/** Which cases the heap programs describe: the parser's image, with a program for each of them. */
module HeapListing {
  import opened Wrappers
  import opened HeapCase
  import opened HeapProgram
  import opened HeapFamilies

  /* ---------- The image ---------- */

  /** How many heap predicates a formula list holds. */
  function Atoms(fs: seq<Node>): nat {
    if fs == [] then 0 else Atoms(fs[..|fs| - 1]) + if fs[|fs| - 1].HeapAtom? then 1 else 0
  }

  /** A heap predicate is the one of the next heaplet. */
  predicate InOrder(fs: seq<Node>, k: nat)
    requires k < |fs|
  {
    fs[k].HeapAtom? ==> fs[k].h == Atoms(fs[..k])
  }

  predicate Symbolic(h: Heaplet) {
    h != [] && h[0].value.TermValue?
  }

  /** All cells store terms or all store constants. */
  predicate Uniform(h: Heaplet) {
    forall k :: 0 <= k < |h| ==> h[k].value.TermValue? == Symbolic(h)
  }

  /** The variables come first, and every other term is an offset. */
  predicate VariablesFirst(terms: seq<Term>, count: nat) {
    && count <= |terms|
    && forall k :: 0 <= k < |terms| ==> if k < count then terms[k] == Var(k) else terms[k].Offset?
  }

  predicate AtomsInOrder(heaps: seq<Heaplet>, formulas: seq<Node>) {
    && Atoms(formulas) == |heaps|
    && forall k :: 0 <= k < |formulas| ==> InOrder(formulas, k)
  }

  /** Variables first, one heap predicate a heaplet in order, heaplets of one sort, at least one check. */
  predicate Listable(c: Case) {
    && WellFormed(c) && c.checks != []
    && VariablesFirst(c.terms, c.count) && AtomsInOrder(c.heaps, c.formulas)
    && forall k :: 0 <= k < |c.heaps| ==> Uniform(c.heaps[k])
  }

  /* ---------- The listing ---------- */

  function TermLines(terms: seq<Term>, count: nat): (p: Program)
    requires VariablesFirst(terms, count)
    ensures |p| == |terms| - count
  {
    seq(|terms| - count, k requires 0 <= k < |terms| - count =>
      assert terms[count + k].Offset?; DeclOffset(terms[count + k].base, terms[count + k].delta))
  }

  function CellPairs(h: Heaplet): (cells: seq<(int, int)>)
    ensures |cells| == |h|
  {
    seq(|h|, k requires 0 <= k < |h| => (h[k].location, if h[k].value.TermValue? then h[k].value.t else h[k].value.c))
  }

  function FormulaLine(n: Node, heaps: seq<Heaplet>): Instr
    requires n.HeapAtom? ==> n.h < |heaps|
  {
    match n
    case HeapAtom(h) => DeclHeap(Symbolic(heaps[h]), CellPairs(heaps[h]))
    case Not(f) => DeclNot(f)
    case And(fs) => DeclAnd(fs)
    case Or(fs) => DeclOr(fs)
  }

  function FormulaLines(formulas: seq<Node>, heaps: seq<Heaplet>): (p: Program)
    requires forall k :: 0 <= k < |formulas| ==> formulas[k].HeapAtom? ==> formulas[k].h < |heaps|
    ensures |p| == |formulas|
  {
    seq(|formulas|, k requires 0 <= k < |formulas| => FormulaLine(formulas[k], heaps))
  }

  function ConstraintLine(c: Constraint): Instr {
    match c
    case Bound(t, lo, hi) => DoBound(t, lo, hi)
    case Eq(s, t) => DoEq(s, t)
    case Assert(f, polarity) => DoAssert(f, polarity)
  }

  function ConstraintLines(cs: seq<Constraint>): (p: Program)
    ensures |p| == |cs|
  {
    seq(|cs|, k requires 0 <= k < |cs| => ConstraintLine(cs[k]))
  }

  /** Each check in a scope of its own. */
  function CheckLines(checks: seq<seq<Constraint>>): Program {
    if checks == [] then []
    else CheckLines(checks[..|checks| - 1]) + ([Push] + ConstraintLines(checks[|checks| - 1]) + [Check, Pop])
  }

  function Listing(c: Case): Program
    requires Listable(c)
  {
    assert forall k :: 0 <= k < |c.formulas| ==> NodeOk(c.formulas[k], k, |c.heaps|);
    TermLines(c.terms, c.count) + FormulaLines(c.formulas, c.heaps) + CheckLines(c.checks)
  }

  /* ---------- The listing parses to the case ---------- */

  lemma {:induction false} RunTerms(terms: seq<Term>, count: nat, k: nat)
    requires VariablesFirst(terms, count) && TermsOk(terms, count) && k <= |terms| - count
    ensures RunMarked(StartMarked(count), TermLines(terms, count)[..k])
         == Some(StartMarked(count).(decls := Decls(terms[..count + k], [], [], false)))
  {
    if k == 0 {
      assert terms[..count] == Fresh(count).terms;
    } else {
      RunTerms(terms, count, k - 1);
      RunOne(StartMarked(count), TermLines(terms, count), k - 1);
      var t := terms[count + k - 1];
      assert terms[..count + k] == terms[..count + k - 1] + [t];
    }
  }

  lemma {:induction false} CellsBack(h: Heaplet, terms: nat)
    requires HeapletOk(h, terms) && Uniform(h)
    ensures CellsInRange(CellPairs(h), Symbolic(h), terms)
    ensures CellsOf(CellPairs(h), Symbolic(h), terms) == h
  {
    forall k | 0 <= k < |h| ensures CellOk(h[k], terms) && h[k].value.TermValue? == Symbolic(h) {
    }
  }

  lemma {:induction false} AtomsGrow(fs: seq<Node>, k: nat)
    requires k <= |fs|
    ensures Atoms(fs[..k]) <= Atoms(fs)
  {
    if k < |fs| {
      AtomsGrow(fs[..|fs| - 1], k);
      assert fs[..|fs| - 1][..k] == fs[..k];
    } else {
      assert fs[..k] == fs;
    }
  }

  /** One formula's line adds exactly it, and its heaplet when it is a heap predicate. */
  lemma {:induction false} DeclareFormula(d: Decls, n: Node, heaps: seq<Heaplet>)
    requires !d.closed && NodeOk(n, |d.formulas|, |heaps|) && |d.heaps| <= |heaps| && d.heaps == heaps[..|d.heaps|]
    requires n.HeapAtom? ==> n.h == |d.heaps|
    requires forall k :: 0 <= k < |heaps| ==> HeapletOk(heaps[k], |d.terms|) && Uniform(heaps[k])
    ensures IsDeclaration(FormulaLine(n, heaps))
    ensures Declare(d, FormulaLine(n, heaps)) ==
            Some(d.(formulas := d.formulas + [n], heaps := if n.HeapAtom? then heaps[..n.h + 1] else d.heaps))
  {
    match n {
      case HeapAtom(h) =>
        CellsBack(heaps[h], |d.terms|);
        assert heaps[..h + 1] == heaps[..h] + [heaps[h]];
      case Not(f) =>
      case And(fs) => assert Indices(fs, |d.formulas|) == fs;
      case Or(fs) => assert Indices(fs, |d.formulas|) == fs;
    }
  }

  lemma {:induction false} RunFormulas(c: Case, s: Marked, p: Program, k: nat)
    requires Listable(c) && s.decls == Decls(c.terms, [], [], false) && k <= |c.formulas| == |p|
    requires forall i :: 0 <= i < |p| ==> NodeOk(c.formulas[i], i, |c.heaps|) && p[i] == FormulaLine(c.formulas[i], c.heaps)
    ensures Atoms(c.formulas[..k]) <= |c.heaps|
    ensures RunMarked(s, p[..k])
         == Some(s.(decls := Decls(c.terms, c.heaps[..Atoms(c.formulas[..k])], c.formulas[..k], false)))
  {
    AtomsGrow(c.formulas, k);
    if k > 0 {
      RunFormulas(c, s, p, k - 1);
      RunOne(s, p, k - 1);
      FormulaStep(c, k - 1);
    }
  }

  lemma {:induction false} FormulaStep(c: Case, k: nat)
    requires Listable(c) && k < |c.formulas| && NodeOk(c.formulas[k], k, |c.heaps|)
    requires Atoms(c.formulas[..k]) <= |c.heaps| && Atoms(c.formulas[..k + 1]) <= |c.heaps|
    ensures var line := FormulaLine(c.formulas[k], c.heaps);
      && IsDeclaration(line)
      && Declare(Decls(c.terms, c.heaps[..Atoms(c.formulas[..k])], c.formulas[..k], false), line)
         == Some(Decls(c.terms, c.heaps[..Atoms(c.formulas[..k + 1])], c.formulas[..k + 1], false))
  {
    var n := c.formulas[k];
    assert InOrder(c.formulas, k);
    assert c.formulas[..k + 1][..k] == c.formulas[..k] && c.formulas[..k + 1] == c.formulas[..k] + [n];
    DeclareFormula(Decls(c.terms, c.heaps[..Atoms(c.formulas[..k])], c.formulas[..k], false), n, c.heaps);
  }

  lemma {:induction false} RunConstraints(s: Marked, cs: seq<Constraint>, k: nat)
    requires ConstraintsOk(cs, |s.decls.terms|, |s.decls.formulas|) && k <= |cs|
    ensures RunMarked(s, ConstraintLines(cs)[..k]) == Some(s.(active := s.active + cs[..k]))
  {
    if k == 0 {
      assert s.active + cs[..0] == s.active;
    } else {
      RunConstraints(s, cs, k - 1);
      RunOne(s, ConstraintLines(cs), k - 1);
      assert ConstraintOk(cs[k - 1], |s.decls.terms|, |s.decls.formulas|);
      assert s.active + cs[..k] == s.active + cs[..k - 1] + [cs[k - 1]];
    }
  }

  lemma {:induction false} RunInstr(s: Marked, i: Instr)
    ensures RunMarked(s, [i]) == StepMarked(s, i)
  {
    var p: Program := [i];
    assert p[1..] == [];
  }

  lemma {:induction false} RunOpen(s: Marked, cs: seq<Constraint>)
    requires s.active == [] && s.scopes == [] && ConstraintsOk(cs, |s.decls.terms|, |s.decls.formulas|)
    ensures RunMarked(s, [Push] + ConstraintLines(cs))
         == Some(s.(decls := s.decls.(closed := true), scopes := [0], active := cs))
  {
    var s1 := s.(decls := s.decls.(closed := true), scopes := [0]);
    RunInstr(s, Push);
    assert [] + [0] == [0];
    RunConcat(s, [Push], ConstraintLines(cs));
    RunConstraints(s1, cs, |cs|);
    assert ConstraintLines(cs)[..|cs|] == ConstraintLines(cs) && [] + cs[..|cs|] == cs;
  }

  lemma {:induction false} RunClose(s: Marked)
    requires s.scopes == [0] && s.decls.closed
    ensures RunMarked(s, [Check, Pop]) == Some(s.(active := [], scopes := [], checks := s.checks + [s.active]))
  {
    var ends: Program := [Check, Pop];
    assert ends == [Check] + [Pop];
    RunConcat(s, [Check], [Pop]);
    RunInstr(s, Check);
    RunInstr(s.(checks := s.checks + [s.active]), Pop);
    assert s.active[..0] == [] && [0][..0] == [];
  }

  /** A check in its scope: it sees just its constraints, and none of them stays. */
  lemma {:induction false} RunCheck(s: Marked, cs: seq<Constraint>)
    requires s.active == [] && s.scopes == [] && ConstraintsOk(cs, |s.decls.terms|, |s.decls.formulas|)
    ensures RunMarked(s, [Push] + ConstraintLines(cs) + [Check, Pop])
         == Some(s.(decls := s.decls.(closed := true), checks := s.checks + [cs]))
  {
    RunOpen(s, cs);
    RunConcat(s, [Push] + ConstraintLines(cs), [Check, Pop]);
    RunClose(s.(decls := s.decls.(closed := true), scopes := [0], active := cs));
  }

  lemma {:induction false} RunChecks(s: Marked, checks: seq<seq<Constraint>>)
    requires s.active == [] && s.scopes == [] && s.checks == []
    requires forall k :: 0 <= k < |checks| ==> ConstraintsOk(checks[k], |s.decls.terms|, |s.decls.formulas|)
    ensures RunMarked(s, CheckLines(checks)) ==
            Some(s.(decls := if checks == [] then s.decls else s.decls.(closed := true), checks := checks))
  {
    if checks != [] {
      var front, last := checks[..|checks| - 1], checks[|checks| - 1];
      RunChecks(s, front);
      var s' := s.(decls := if front == [] then s.decls else s.decls.(closed := true), checks := front);
      RunConcat(s, CheckLines(front), [Push] + ConstraintLines(last) + [Check, Pop]);
      RunCheck(s', last);
      assert front + [last] == checks;
    }
  }

  /** The listing of a case parses to the case. */
  lemma {:induction false} ParsedListing(c: Case)
    requires Listable(c)
    ensures Parsed(c.count, Listing(c)) == Some(c)
  {
    var terms, formulas, checks := TermLines(c.terms, c.count), FormulaLines(c.formulas, c.heaps), CheckLines(c.checks);
    var start := StartMarked(c.count);
    RunConcat(start, terms + formulas, checks);
    RunConcat(start, terms, formulas);
    RunTerms(c.terms, c.count, |terms|);
    assert terms[..|terms|] == terms && c.terms[..|c.terms|] == c.terms;
    var s := start.(decls := Decls(c.terms, [], [], false));
    RunFormulas(c, s, formulas, |formulas|);
    assert formulas[..|formulas|] == formulas && c.formulas[..|c.formulas|] == c.formulas && c.heaps[..|c.heaps|] == c.heaps;
    RunChecks(s.(decls := Decls(c.terms, c.heaps, c.formulas, false)), c.checks);
  }

  /* ---------- Nothing else is parsed ---------- */

  predicate DeclsListable(d: Decls, count: nat) {
    && VariablesFirst(d.terms, count) && AtomsInOrder(d.heaps, d.formulas)
    && forall k :: 0 <= k < |d.heaps| ==> Uniform(d.heaps[k])
  }

  lemma {:induction false} InOrderSnoc(fs: seq<Node>, n: Node)
    requires (forall k :: 0 <= k < |fs| ==> InOrder(fs, k)) && (n.HeapAtom? ==> n.h == Atoms(fs))
    ensures forall k :: 0 <= k < |fs + [n]| ==> InOrder(fs + [n], k)
    ensures Atoms(fs + [n]) == Atoms(fs) + if n.HeapAtom? then 1 else 0
  {
    assert (fs + [n])[..|fs|] == fs;
    forall k | 0 <= k < |fs + [n]| ensures InOrder(fs + [n], k) {
      if k < |fs| {
        assert InOrder(fs, k) && (fs + [n])[..k] == fs[..k];
      }
    }
  }

  lemma {:induction false} DeclareListable(d: Decls, i: Instr, count: nat)
    requires DeclsListable(d, count) && Declare(d, i).Some?
    ensures DeclsListable(Declare(d, i).value, count)
  {
    var d' := Declare(d, i).value;
    if |d'.formulas| > |d.formulas| {
      InOrderSnoc(d.formulas, d'.formulas[|d.formulas|]);
    }
  }

  lemma {:induction false} RunListable(s: Marked, program: Program, count: nat)
    requires DeclsListable(s.decls, count) && RunMarked(s, program).Some?
    ensures DeclsListable(RunMarked(s, program).value.decls, count)
    decreases |program|
  {
    if program != [] {
      if IsDeclaration(program[0]) { DeclareListable(s.decls, program[0], count); }
      RunListable(StepMarked(s, program[0]).value, program[1..], count);
    }
  }

  /** The programs describe exactly the listable cases. */
  lemma {:induction false} ImageExact(c: Case)
    ensures Listable(c) <==> exists program :: Parsed(c.count, program) == Some(c)
  {
    if Listable(c) {
      ParsedListing(c);
    }
    forall program | Parsed(c.count, program) == Some(c) ensures Listable(c) {
      ParsedWellFormed(c.count, program);
      RunListable(StartMarked(c.count), program, c.count);
    }
  }
}
