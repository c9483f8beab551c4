/** Cube generation by binary splitting, and the worker's solving of one cube. */
module Cubes {
  import opened Wrappers
  import opened Bits

  datatype Literal = Literal(variable: nat, negated: bool)

  type Cube = seq<Literal>

  /** A truth assignment to the script's Boolean constants, by name. */
  type Assignment = string -> bool

  /**
   * The script as cube-and-conquer sees it: the names of its Boolean constants, in
   * declaration order and possibly repeated, and the assignments to Boolean constants
   * that extend to a model of the script.
   */
  datatype Problem = Problem(boolVars: seq<string>, admits: Assignment -> bool)

  datatype Status = Sat | Unsat | Unknown

  ghost predicate Satisfiable(p: Problem) {
    exists a: Assignment :: p.admits(a)
  }

  predicate LiteralHolds(names: seq<string>, lit: Literal, a: Assignment) {
    lit.variable < |names| && a(names[lit.variable]) != lit.negated
  }

  predicate CubeHolds(names: seq<string>, cube: Cube, a: Assignment) {
    forall k :: 0 <= k < |cube| ==> LiteralHolds(names, cube[k], a)
  }

  ghost predicate CubeSatisfiable(p: Problem, cube: Cube) {
    exists a: Assignment :: p.admits(a) && CubeHolds(p.boolVars, cube, a)
  }

  /** The least d with n <= 2^d. */
  function CeilLog2(n: nat): (d: nat)
    ensures n <= Pow2(d)
    ensures d > 0 ==> Pow2(d - 1) < n
  {
    if n <= 1 then 0 else CeilLog2((n + 1) / 2) + 1
  }

  /** How many variables the generator splits on. */
  function Depth(numCubes: nat, numVars: nat): (d: nat)
    ensures d <= numVars
    ensures numCubes <= Pow2(d) || d == numVars
    ensures d > 0 ==> Pow2(d - 1) < numCubes
  {
    if numVars == 0 || numCubes <= 1 then 0
    else if CeilLog2(numCubes) < numVars then CeilLog2(numCubes)
    else
      Pow2Monotone(numVars - 1, CeilLog2(numCubes) - 1);
      numVars
  }

  /** `generated(cubes, d)`: cube i reads the d lowest bits of i as polarities. */
  ghost predicate Generated(cubes: seq<Cube>, d: nat) {
    && |cubes| == Pow2(d)
    && forall i :: 0 <= i < |cubes| ==> PolaritiesOf(cubes[i], i, d)
  }

  ghost predicate PolaritiesOf(cube: Cube, i: nat, d: nat) {
    && |cube| == d
    && forall bit :: 0 <= bit < d ==> cube[bit] == Literal(bit, !Bit(i, bit))
  }

  method GenerateCubes(numCubes: nat, numVars: nat) returns (cubes: seq<Cube>)
    ensures Generated(cubes, Depth(numCubes, numVars))
  {
    if numVars == 0 || numCubes <= 1 {
      return [[]];
    }
    var depth := CeilLog2(numCubes);
    var varsToUse := if depth < numVars then depth else numVars;
    var actualNumCubes := Pow2(varsToUse);
    cubes := [];
    for i := 0 to actualNumCubes
      invariant |cubes| == i
      invariant forall j :: 0 <= j < i ==> PolaritiesOf(cubes[j], j, varsToUse)
    {
      var cube := [];
      for bit := 0 to varsToUse
        invariant PolaritiesOf(cube, i, bit)
      {
        cube := cube + [Literal(bit, Shr(i, bit) % 2 == 0)];
      }
      cubes := cubes + [cube];
    }
  }

  /** The number whose bits, from the lowest up, are the assignment's values of names[lo..hi]. */
  ghost function IndexOf(names: seq<string>, a: Assignment, lo: nat, hi: nat): (i: nat)
    requires lo <= hi <= |names|
    ensures i < Pow2(hi - lo)
    decreases hi - lo
  {
    if lo == hi then 0
    else (if a(names[lo]) then 1 else 0) + 2 * IndexOf(names, a, lo + 1, hi)
  }

  lemma {:induction false} IndexBits(names: seq<string>, a: Assignment, lo: nat, hi: nat, b: nat)
    requires lo <= hi <= |names| && b < hi - lo
    ensures Bit(IndexOf(names, a, lo, hi), b) == a(names[lo + b])
    decreases hi - lo
  {
    if b > 0 {
      IndexBits(names, a, lo + 1, hi, b - 1);
      BitOfHalf(IndexOf(names, a, lo, hi), b - 1);
    }
  }

  ghost predicate ExactlyOneCube(names: seq<string>, cubes: seq<Cube>, a: Assignment) {
    exists i :: 0 <= i < |cubes| && CubeHolds(names, cubes[i], a)
             && forall j :: 0 <= j < |cubes| && CubeHolds(names, cubes[j], a) ==> j == i
  }

  /** The generated cubes partition the assignment space, also when names repeat. */
  lemma {:induction false} CubesPartition(names: seq<string>, cubes: seq<Cube>, d: nat, a: Assignment)
    requires Generated(cubes, d) && d <= |names|
    ensures ExactlyOneCube(names, cubes, a)
  {
    var i := IndexOf(names, a, 0, d);
    forall b | 0 <= b < d ensures Bit(i, b) == a(names[b]) { IndexBits(names, a, 0, d, b); }
    assert PolaritiesOf(cubes[i], i, d);
    assert CubeHolds(names, cubes[i], a);
    forall j | 0 <= j < |cubes| && CubeHolds(names, cubes[j], a)
      ensures j == i
    {
      assert PolaritiesOf(cubes[j], j, d);
      forall b | 0 <= b < d ensures Bit(j, b) == Bit(i, b) {
        assert LiteralHolds(names, cubes[j][b], a);
      }
      BitsDetermine(i, j, d);
    }
  }

  /** No two generated cubes are equal: two distinct ones disagree on a variable both mention. */
  lemma {:induction false} CubesContradict(cubes: seq<Cube>, d: nat, i: nat, j: nat)
    requires Generated(cubes, d)
    requires i < |cubes| && j < |cubes| && i != j
    ensures exists b :: 0 <= b < d
              && cubes[i][b].variable == cubes[j][b].variable
              && cubes[i][b].negated != cubes[j][b].negated
  {
    assert PolaritiesOf(cubes[i], i, d) && PolaritiesOf(cubes[j], j, d);
    if forall b :: 0 <= b < d ==> Bit(i, b) == Bit(j, b) {
      BitsDetermine(i, j, d);
      assert false;
    }
    var b :| 0 <= b < d && Bit(i, b) != Bit(j, b);
    assert cubes[i][b].negated != cubes[j][b].negated;
  }

  /** The problem is the disjunction of its cubes. */
  lemma {:induction false} CubesCover(p: Problem, cubes: seq<Cube>, d: nat)
    requires Generated(cubes, d) && d <= |p.boolVars|
    ensures Satisfiable(p) <==> exists i :: 0 <= i < |cubes| && CubeSatisfiable(p, cubes[i])
  {
    if Satisfiable(p) {
      var a :| p.admits(a);
      CubesPartition(p.boolVars, cubes, d, a);
      var i :| 0 <= i < |cubes| && CubeHolds(p.boolVars, cubes[i], a);
      assert CubeSatisfiable(p, cubes[i]);
    }
  }

  /**
   * The context after the script ran: the solver is handed the asserted literals, each a
   * declared name with a polarity, on top of the script.
   */
  type NamedLiteral = (string, bool)

  predicate NamedHold(lits: seq<NamedLiteral>, a: Assignment) {
    forall k :: 0 <= k < |lits| ==> a(lits[k].0) != lits[k].1
  }

  ghost predicate SoundCheck(p: Problem, check: seq<NamedLiteral> -> Status) {
    forall lits ::
      && (check(lits) == Sat ==> exists a: Assignment :: p.admits(a) && NamedHold(lits, a))
      && (check(lits) == Unsat ==> forall a: Assignment :: p.admits(a) ==> !NamedHold(lits, a))
  }

  /** A status that does not contradict the cube it is reported for. */
  ghost predicate CorrectFor(p: Problem, cube: Cube, status: Status) {
    && (status == Sat ==> CubeSatisfiable(p, cube))
    && (status == Unsat ==> !CubeSatisfiable(p, cube))
  }

  /** The literals, named, say of every assignment what the cube says. */
  ghost predicate Names(p: Problem, cube: Cube, lits: seq<NamedLiteral>) {
    |lits| == |cube| && forall a: Assignment :: NamedHold(lits, a) <==> CubeHolds(p.boolVars, cube, a)
  }

  lemma {:induction false} NamedCube(p: Problem, cube: Cube, lits: seq<NamedLiteral>)
    requires |lits| == |cube| && forall k :: 0 <= k < |cube| ==> cube[k].variable < |p.boolVars|
    requires forall k :: 0 <= k < |cube| ==> lits[k] == (p.boolVars[cube[k].variable], cube[k].negated)
    ensures Names(p, cube, lits)
  {
    forall a: Assignment ensures NamedHold(lits, a) <==> CubeHolds(p.boolVars, cube, a) {
      forall k | 0 <= k < |cube| ensures LiteralHolds(p.boolVars, cube[k], a) <==> a(lits[k].0) != lits[k].1 {}
      if CubeHolds(p.boolVars, cube, a) {
        forall k | 0 <= k < |lits| ensures a(lits[k].0) != lits[k].1 {
          assert LiteralHolds(p.boolVars, cube[k], a);
        }
      }
      if NamedHold(lits, a) {
        forall k | 0 <= k < |cube| ensures LiteralHolds(p.boolVars, cube[k], a) {
          assert a(lits[k].0) != lits[k].1;
        }
      }
    }
  }

  /** A cube the worker can assert: the script runs and no index is stray. */
  predicate Solvable(p: Problem, scriptRuns: bool, cube: Cube) {
    scriptRuns && forall k :: 0 <= k < |cube| ==> cube[k].variable < |p.boolVars|
  }

  /**
   * The worker hands the solver the cube's literals by name and reports its answer; a stray index
   * or a failing script gives Unknown. So a sound solver's report never contradicts the cube, and
   * one that always decides settles it.
   */
  method SolveCube(p: Problem, scriptRuns: bool, cube: Cube, check: seq<NamedLiteral> -> Status)
    returns (status: Status)
    ensures !Solvable(p, scriptRuns, cube) ==> status == Unknown
    ensures Solvable(p, scriptRuns, cube) ==> exists lits :: Names(p, cube, lits) && status == check(lits)
    ensures SoundCheck(p, check) ==> CorrectFor(p, cube, status)
    ensures Solvable(p, scriptRuns, cube) && SoundCheck(p, check) && (forall lits :: check(lits) != Unknown) ==>
              status != Unknown && (status == Sat <==> CubeSatisfiable(p, cube))
  {
    if !scriptRuns {
      return Unknown;
    }
    var asserted: seq<NamedLiteral> := [];
    for k := 0 to |cube|
      invariant |asserted| == k
      invariant forall j :: 0 <= j < k ==> cube[j].variable < |p.boolVars|
      invariant forall j :: 0 <= j < k ==> asserted[j] == (p.boolVars[cube[j].variable], cube[j].negated)
    {
      if cube[k].variable >= |p.boolVars| {
        return Unknown;
      }
      asserted := asserted + [(p.boolVars[cube[k].variable], cube[k].negated)];
    }
    NamedCube(p, cube, asserted);
    status := check(asserted);
  }
}
