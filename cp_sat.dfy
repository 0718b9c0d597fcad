/**
 * The part of the CP-SAT engine's interface the optimizer script uses: Boolean
 * variables, linear constraints, `AddMaxEquality`, a linear objective to
 * minimise, and a solve call that answers with a status and a 0/1 value for
 * every variable. The search itself is not modelled; an engine is any function
 * from models to answers that keeps the promises stated by `SoundEngine`.
 */
module CpSat {

  /**
   * The Boolean variables the script creates: `y[c, b]` (company `c` sits in
   * booth `b`, keyed by name and number as the script's dict is), and for the
   * conflict edge with index `edge` and the company pair (i, j) the variable
   * `z` and the two conjunction helpers `z1`, `z2`.
   */
  datatype Var =
    | Y(company: string, booth: int)
    | Z(edge: nat, i: nat, j: nat)
    | And1(edge: nat, i: nat, j: nat)
    | And2(edge: nat, i: nat, j: nat)

  /** `coef * v` inside a linear expression. */
  datatype Term = Term(coef: int, v: Var)

  datatype Cmp = Eq | Le | Ge

  datatype Constraint =
    | Linear(terms: seq<Term>, cmp: Cmp, rhs: int)     // sum of the terms, compared with rhs
    | MaxEquality(target: Var, args: seq<Var>)         // target == max(args)

  /** The posted constraints, in posting order, and the objective to minimise. */
  datatype CpModel = CpModel(constraints: seq<Constraint>, objective: seq<Term>)

  /** What `solver.Value` reports for each variable. */
  type Values = Var -> int

  datatype Status = Optimal | Feasible | Infeasible | ModelInvalid | Unknown

  datatype SolveResponse = SolveResponse(status: Status, values: Values)

  /** The two statuses under which the script reads the values out. */
  predicate Answered(status: Status)
  {
    status == Optimal || status == Feasible
  }

  /** The value of a linear expression. */
  function Eval(terms: seq<Term>, val: Values): int
  {
    if terms == [] then 0
    else Eval(terms[..|terms| - 1], val) + terms[|terms| - 1].coef * val(terms[|terms| - 1].v)
  }

  function MaxOf(args: seq<Var>, val: Values): int
    requires |args| > 0
  {
    if |args| == 1 then val(args[0])
    else
      var m := MaxOf(args[..|args| - 1], val);
      var last := val(args[|args| - 1]);
      if last > m then last else m
  }

  predicate Holds(c: Constraint, val: Values)
  {
    match c
    case Linear(terms, cmp, rhs) =>
      var s := Eval(terms, val);
      (match cmp
       case Eq => s == rhs
       case Le => s <= rhs
       case Ge => s >= rhs)
    case MaxEquality(target, args) =>
      |args| > 0 && val(target) == MaxOf(args, val)
  }

  /** Every variable is Boolean. */
  ghost predicate ZeroOne(val: Values)
  {
    forall v :: 0 <= val(v) <= 1
  }

  /** Boolean values under which every posted constraint holds. */
  ghost predicate Solution(m: CpModel, val: Values)
  {
    ZeroOne(val) && forall c :: c in m.constraints ==> Holds(c, val)
  }

  /**
   * What the engine promises: an OPTIMAL or FEASIBLE answer carries a solution,
   * and an OPTIMAL one has an objective no solution improves on.
   */
  ghost predicate SoundEngine(solve: CpModel -> SolveResponse)
  {
    forall m ::
      && (Answered(solve(m).status) ==> Solution(m, solve(m).values))
      && (solve(m).status == Optimal ==>
            forall val :: Solution(m, val) ==> Eval(m.objective, solve(m).values) <= Eval(m.objective, val))
  }
}
