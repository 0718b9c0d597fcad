/**
 * Steps 4 and 5 of the optimizer script: the Boolean assignment model it posts
 * to CP-SAT and the read-out of the assignment from the engine's answer.
 * The functions below say which constraints and objective terms the script
 * posts, in posting order; `BuildModel` and `ExtractAssignment` are the loops
 * of the script, proved to produce exactly those.
 */
module Formulation {
  import opened Common
  import opened CpSat

  /**
   * The data the model is built from: company names in selection order, booth
   * numbers in layout order, the conflict edges in dict-key order with their
   * weights, and each company's popularity.
   */
  datatype Instance = Instance(
    companies: seq<string>,
    booths: seq<int>,
    edges: seq<(int, int)>,
    weights: map<(int, int), real>,
    popularity: map<string, real>)

  /** Every lookup the script makes succeeds: edges have weights and name layout booths, companies have popularity. */
  predicate WellFormed(inst: Instance)
  {
    && (forall e :: e in inst.edges ==> e in inst.weights && e.0 in inst.booths && e.1 in inst.booths)
    && (forall c :: c in inst.companies ==> c in inst.popularity)
  }

  // ---------------------------------------------------------------------
  // Cost of one conflict
  // ---------------------------------------------------------------------

  /** The factor that turns real costs into the engine's integers. */
  const Scale: real := 1000.0

  /** Python's `int(r)`: truncation toward zero, not rounding. */
  function Trunc(r: real): (t: int)
    ensures r >= 0.0 ==> 0 <= t && t as real <= r < t as real + 1.0
    ensures r < 0.0 ==> t <= 0 && t as real - 1.0 < r <= t as real
  {
    if r >= 0.0 then r.Floor else -((-r).Floor)
  }

  /** `int(w * p1 * p2 * 1000)`. */
  function PairCost(w: real, p1: real, p2: real): int
  {
    Trunc(w * p1 * p2 * Scale)
  }

  // ---------------------------------------------------------------------
  // One-to-one constraints
  // ---------------------------------------------------------------------

  /** `sum(y[c, b] for b in booths)`. */
  function BoothTerms(c: string, booths: seq<int>): (r: seq<Term>)
    ensures |r| == |booths| && forall k :: 0 <= k < |booths| ==> r[k] == Term(1, Y(c, booths[k]))
  {
    if booths == [] then [] else BoothTerms(c, booths[..|booths| - 1]) + [Term(1, Y(c, booths[|booths| - 1]))]
  }

  /** `sum(y[c, b] for c in companies)`. */
  function CompanyTerms(companies: seq<string>, b: int): (r: seq<Term>)
    ensures |r| == |companies| && forall k :: 0 <= k < |companies| ==> r[k] == Term(1, Y(companies[k], b))
  {
    if companies == [] then [] else CompanyTerms(companies[..|companies| - 1], b) + [Term(1, Y(companies[|companies| - 1], b))]
  }

  /** Each company gets exactly one booth: one equality per company. */
  function CompanyRows(companies: seq<string>, booths: seq<int>): (r: seq<Constraint>)
    ensures |r| == |companies|
    ensures forall k :: 0 <= k < |companies| ==> r[k] == Linear(BoothTerms(companies[k], booths), Eq, 1)
  {
    if companies == [] then []
    else CompanyRows(companies[..|companies| - 1], booths) + [Linear(BoothTerms(companies[|companies| - 1], booths), Eq, 1)]
  }

  /** Each booth gets at most one company: one inequality per booth. */
  function BoothRows(companies: seq<string>, booths: seq<int>): (r: seq<Constraint>)
    ensures |r| == |booths|
    ensures forall k :: 0 <= k < |booths| ==> r[k] == Linear(CompanyTerms(companies, booths[k]), Le, 1)
  {
    if booths == [] then []
    else BoothRows(companies, booths[..|booths| - 1]) + [Linear(CompanyTerms(companies, booths[|booths| - 1]), Le, 1)]
  }

  // ---------------------------------------------------------------------
  // Conflict terms: one slot per conflict edge and company pair i < j
  // ---------------------------------------------------------------------

  /** An iteration of the objective loop: the edge index and the indices of the two companies. */
  datatype Slot = Slot(edge: nat, i: nat, j: nat)

  /** Slots (e, i, j') for i < j' < j, in loop order. */
  function PairSlots(e: nat, i: nat, j: nat): (r: seq<Slot>)
    requires i < j
    decreases j
  {
    if j == i + 1 then [] else PairSlots(e, i, j - 1) + [Slot(e, i, j - 1)]
  }

  /** Slots of edge `e` whose first company is one of the first `i` of `n`. */
  function CompanySlots(e: nat, n: nat, i: nat): (r: seq<Slot>)
    requires i <= n
  {
    if i == 0 then [] else CompanySlots(e, n, i - 1) + PairSlots(e, i - 1, n)
  }

  /** Slots of the first `e` edges, for `n` companies. */
  function EdgeSlots(n: nat, e: nat): (r: seq<Slot>)
  {
    if e == 0 then [] else EdgeSlots(n, e - 1) + CompanySlots(e - 1, n, n)
  }

  function Slots(inst: Instance): seq<Slot>
  {
    EdgeSlots(|inst.companies|, |inst.edges|)
  }

  predicate ValidSlot(inst: Instance, s: Slot)
  {
    s.edge < |inst.edges| && s.i < s.j < |inst.companies|
  }

  function ZOf(s: Slot): Var { Z(s.edge, s.i, s.j) }

  /** `zz <= a`, `zz <= b`, `zz >= a + b - 1`. */
  function AndConstraints(zz: Var, a: Var, b: Var): seq<Constraint>
  {
    [ Linear([Term(1, zz), Term(-1, a)], Le, 0),
      Linear([Term(1, zz), Term(-1, b)], Le, 0),
      Linear([Term(1, zz), Term(-1, a), Term(-1, b)], Ge, -1) ]
  }

  /** The seven constraints posted for one slot: two conjunctions and their maximum. */
  function Block(inst: Instance, s: Slot): seq<Constraint>
  {
    if !ValidSlot(inst, s) then [] else
    var (b1, b2) := inst.edges[s.edge];
    var c1, c2 := inst.companies[s.i], inst.companies[s.j];
    var z1, z2 := And1(s.edge, s.i, s.j), And2(s.edge, s.i, s.j);
    AndConstraints(z1, Y(c1, b1), Y(c2, b2))
    + AndConstraints(z2, Y(c1, b2), Y(c2, b1))
    + [MaxEquality(ZOf(s), [z1, z2])]
  }

  function Blocks(inst: Instance, slots: seq<Slot>): seq<Constraint>
    decreases |slots|, 1
  {
    if slots == [] then [] else BlocksThroughLast(inst, slots)
  }

  /** `Blocks` of a non-empty slot list: the blocks before its last slot, then that slot's block. */
  function BlocksThroughLast(inst: Instance, slots: seq<Slot>): seq<Constraint>
    requires slots != []
    decreases |slots|, 0
  {
    Blocks(inst, slots[..|slots| - 1]) + Block(inst, slots[|slots| - 1])
  }

  /** The cost of putting the slot's two companies on the slot's edge. */
  function SlotCost(inst: Instance, s: Slot): int
  {
    if !ValidSlot(inst, s) then 0 else
    var e := inst.edges[s.edge];
    var c1, c2 := inst.companies[s.i], inst.companies[s.j];
    if !(e in inst.weights && c1 in inst.popularity && c2 in inst.popularity) then 0 else
    PairCost(inst.weights[e], inst.popularity[inst.companies[s.i]], inst.popularity[inst.companies[s.j]])
  }

  function CostTerms(inst: Instance, slots: seq<Slot>): (r: seq<Term>)
    ensures |r| == |slots|
  {
    if slots == [] then []
    else
      var s := slots[|slots| - 1];
      CostTerms(inst, slots[..|slots| - 1]) + [Term(SlotCost(inst, s), ZOf(s))]
  }

  /** The complete model the script hands to the engine. */
  function ModelOf(inst: Instance): CpModel
  {
    CpModel(
      CompanyRows(inst.companies, inst.booths) + BoothRows(inst.companies, inst.booths) + Blocks(inst, Slots(inst)),
      CostTerms(inst, Slots(inst)))
  }

  // ---------------------------------------------------------------------
  // The assignment read back from an answer, and its congestion
  // ---------------------------------------------------------------------

  /** (c, b) for every booth b, in layout order, whose y[c, b] is 1. */
  function RowAssignment(c: string, booths: seq<int>, val: Values): seq<(string, int)>
  {
    if booths == [] then []
    else
      var b := booths[|booths| - 1];
      RowAssignment(c, booths[..|booths| - 1], val) + (if val(Y(c, b)) == 1 then [(c, b)] else [])
  }

  /** The `placed` list of step 5: company by company, booth by booth. */
  function Assignment(companies: seq<string>, booths: seq<int>, val: Values): seq<(string, int)>
  {
    if companies == [] then []
    else Assignment(companies[..|companies| - 1], booths, val) + RowAssignment(companies[|companies| - 1], booths, val)
  }

  /**
   * `placed` gives company k, in selection order, a booth of the layout, and no
   * booth is given twice.
   */
  predicate OneToOne(companies: seq<string>, booths: seq<int>, placed: seq<(string, int)>)
  {
    && |placed| == |companies|
    && (forall k :: 0 <= k < |placed| ==> placed[k].0 == companies[k] && placed[k].1 in booths)
    && (forall k, l :: 0 <= k < l < |placed| ==> placed[k].1 != placed[l].1)
  }

  /** Companies i and j sit on the two booths of `edge`, in either orientation. */
  predicate Occupies(placed: seq<(string, int)>, edge: (int, int), i: nat, j: nat)
    requires i < |placed| && j < |placed|
  {
    || (placed[i].1 == edge.0 && placed[j].1 == edge.1)
    || (placed[i].1 == edge.1 && placed[j].1 == edge.0)
  }

  function CongestionOver(inst: Instance, slots: seq<Slot>, placed: seq<(string, int)>): int
    requires |placed| == |inst.companies|
  {
    if slots == [] then 0
    else
      var s := slots[|slots| - 1];
      CongestionOver(inst, slots[..|slots| - 1], placed)
      + (if ValidSlot(inst, s) && Occupies(placed, inst.edges[s.edge], s.i, s.j) then SlotCost(inst, s) else 0)
  }

  /**
   * The congestion of an assignment that gives company k the booth
   * `placed[k].1`, computed directly: for every conflict edge and every
   * company pair i < j sitting on its two booths, the pair's cost.
   */
  function Congestion(inst: Instance, placed: seq<(string, int)>): int
    requires |placed| == |inst.companies|
  {
    CongestionOver(inst, Slots(inst), placed)
  }

  // ---------------------------------------------------------------------
  // The script's loops
  // ---------------------------------------------------------------------

  /**
   * Step 4: post "one booth per company", then "at most one company per
   * booth", then for every conflict edge and company pair i < j the
   * linearised conjunctions and their maximum, collecting `cost * z` terms for
   * the objective.
   */
  method BuildModel(inst: Instance) returns (model: CpModel)
    requires WellFormed(inst)
    ensures model == ModelOf(inst)
  {
    var rows := PostRows(inst.companies, inst.booths);
    var columns := PostColumns(inst.companies, inst.booths);
    var posted, zTerms := PostConflicts(inst);
    model := CpModel(rows + columns + posted, zTerms);
  }

  /** The first loop of step 4: one booth per company. */
  method PostRows(companies: seq<string>, booths: seq<int>) returns (constraints: seq<Constraint>)
    ensures constraints == CompanyRows(companies, booths)
  {
    constraints := [];
    var k := 0;
    while k < |companies|
      invariant 0 <= k <= |companies|
      invariant constraints == CompanyRows(companies[..k], booths)
    {
      assert companies[..k + 1][..k] == companies[..k];
      constraints := constraints + [Linear(BoothTerms(companies[k], booths), Eq, 1)];
      k := k + 1;
    }
    assert companies[..k] == companies;
  }

  /** The second loop of step 4: at most one company per booth. */
  method PostColumns(companies: seq<string>, booths: seq<int>) returns (constraints: seq<Constraint>)
    ensures constraints == BoothRows(companies, booths)
  {
    constraints := [];
    var k := 0;
    while k < |booths|
      invariant 0 <= k <= |booths|
      invariant constraints == BoothRows(companies, booths[..k])
    {
      assert booths[..k + 1][..k] == booths[..k];
      constraints := constraints + [Linear(CompanyTerms(companies, booths[k]), Le, 1)];
      k := k + 1;
    }
    assert booths[..k] == booths;
  }

  /** The objective loop of step 4, edge by edge. */
  method PostConflicts(inst: Instance) returns (posted: seq<Constraint>, zTerms: seq<Term>)
    requires WellFormed(inst)
    ensures posted == Blocks(inst, Slots(inst))
    ensures zTerms == CostTerms(inst, Slots(inst))
  {
    var n := |inst.companies|;
    posted, zTerms := [], [];
    var e := 0;
    while e < |inst.edges|
      invariant 0 <= e <= |inst.edges|
      invariant posted == Blocks(inst, EdgeSlots(n, e))
      invariant zTerms == CostTerms(inst, EdgeSlots(n, e))
    {
      var more, moreTerms := PostEdge(inst, e);
      FirstBlocksSlots(inst, e, n);
      FirstCostsSlots(inst, e, n);
      EdgeSlotsStep(inst, e);
      posted, zTerms := posted + more, zTerms + moreTerms;
      e := e + 1;
    }
  }

  /** The middle loop of step 4: every first company `c1`, on edge `e`. */
  method PostEdge(inst: Instance, e: nat) returns (posted: seq<Constraint>, zTerms: seq<Term>)
    requires WellFormed(inst) && e < |inst.edges|
    ensures posted == FirstBlocks(inst, e, |inst.companies|)
    ensures zTerms == FirstCosts(inst, e, |inst.companies|)
  {
    var n := |inst.companies|;
    posted, zTerms := [], [];
    var i := 0;
    while i < n
      invariant 0 <= i <= n
      invariant posted == FirstBlocks(inst, e, i)
      invariant zTerms == FirstCosts(inst, e, i)
    {
      var more, moreTerms := PostPairs(inst, e, i);
      posted, zTerms := posted + more, zTerms + moreTerms;
      i := i + 1;
    }
  }

  /** The constraints the middle loop has posted after its first `i` rounds. */
  function FirstBlocks(inst: Instance, e: nat, i: nat): seq<Constraint>
  {
    if i == 0 then [] else FirstBlocks(inst, e, i - 1) + PairBlocks(inst, e, i - 1, |inst.companies|)
  }

  /** The objective terms the middle loop has collected after its first `i` rounds. */
  function FirstCosts(inst: Instance, e: nat, i: nat): seq<Term>
  {
    if i == 0 then [] else FirstCosts(inst, e, i - 1) + PairCosts(inst, e, i - 1, |inst.companies|)
  }

  /**
   * The constraints the innermost loop has posted for company `i` once its
   * second company has reached `j`. The recursion goes through
   * `PairBlocksThrough` so that one unfolding exposes one slot at a time.
   */
  function PairBlocks(inst: Instance, e: nat, i: nat, j: nat): seq<Constraint>
    decreases j, 0
  {
    if j <= i + 1 then [] else PairBlocksThrough(inst, e, i, j - 1)
  }

  /** The innermost loop's constraints up to and including the slot of company `j`. */
  function PairBlocksThrough(inst: Instance, e: nat, i: nat, j: nat): seq<Constraint>
    decreases j, 1
  {
    PairBlocks(inst, e, i, j) + Block(inst, Slot(e, i, j))
  }

  /** The objective terms the innermost loop has collected for company `i` once its second company has reached `j`. */
  function PairCosts(inst: Instance, e: nat, i: nat, j: nat): seq<Term>
    decreases j, 0
  {
    if j <= i + 1 then [] else PairCostsThrough(inst, e, i, j - 1)
  }

  /** The innermost loop's objective terms up to and including the slot of company `j`. */
  function PairCostsThrough(inst: Instance, e: nat, i: nat, j: nat): seq<Term>
    decreases j, 1
  {
    PairCosts(inst, e, i, j) + [Term(SlotCost(inst, Slot(e, i, j)), Z(e, i, j))]
  }

  /** The innermost loop posts exactly the blocks of its slots (i, j') for i < j' < j. */
  lemma {:induction false} PairBlocksSlots(inst: Instance, e: nat, i: nat, j: nat)
    requires i < j
    ensures PairBlocks(inst, e, i, j) == Blocks(inst, PairSlots(e, i, j))
  {
    if j > i + 1 {
      PairBlocksSlots(inst, e, i, j - 1);
      var before := PairSlots(e, i, j - 1);
      assert PairSlots(e, i, j) == before + [Slot(e, i, j - 1)];
      assert (before + [Slot(e, i, j - 1)])[..|before|] == before;
    }
  }

  /** The innermost loop collects exactly the cost terms of its slots. */
  lemma {:induction false} PairCostsSlots(inst: Instance, e: nat, i: nat, j: nat)
    requires i < j
    ensures PairCosts(inst, e, i, j) == CostTerms(inst, PairSlots(e, i, j))
  {
    if j > i + 1 {
      PairCostsSlots(inst, e, i, j - 1);
      var before := PairSlots(e, i, j - 1);
      assert PairSlots(e, i, j) == before + [Slot(e, i, j - 1)];
      assert (before + [Slot(e, i, j - 1)])[..|before|] == before;
    }
  }

  /** The first `i` rounds of the middle loop post the blocks of the slots whose first company is below `i`. */
  lemma {:induction false} FirstBlocksSlots(inst: Instance, e: nat, i: nat)
    requires i <= |inst.companies|
    ensures FirstBlocks(inst, e, i) == Blocks(inst, CompanySlots(e, |inst.companies|, i))
  {
    if i > 0 {
      var n := |inst.companies|;
      var earlier, pairs := CompanySlots(e, n, i - 1), PairSlots(e, i - 1, n);
      FirstBlocksSlots(inst, e, i - 1);
      PairBlocksSlots(inst, e, i - 1, n);
      BlocksAppend(inst, earlier, pairs);
      assert CompanySlots(e, n, i) == earlier + pairs;
    }
  }

  /** The first `i` rounds of the middle loop collect the cost terms of those slots. */
  lemma {:induction false} FirstCostsSlots(inst: Instance, e: nat, i: nat)
    requires i <= |inst.companies|
    ensures FirstCosts(inst, e, i) == CostTerms(inst, CompanySlots(e, |inst.companies|, i))
  {
    if i > 0 {
      var n := |inst.companies|;
      FirstCostsSlots(inst, e, i - 1);
      PairCostsSlots(inst, e, i - 1, n);
      CostTermsAppend(inst, CompanySlots(e, n, i - 1), PairSlots(e, i - 1, n));
    }
  }

  /** The innermost loop of step 4: company `i` against every later company, on edge `e`. */
  method PostPairs(inst: Instance, e: nat, i: nat) returns (posted: seq<Constraint>, zTerms: seq<Term>)
    requires WellFormed(inst) && e < |inst.edges| && i < |inst.companies|
    ensures posted == PairBlocks(inst, e, i, |inst.companies|)
    ensures zTerms == PairCosts(inst, e, i, |inst.companies|)
  {
    var companies := inst.companies;
    var (b1, b2) := inst.edges[e];
    var w := inst.weights[(b1, b2)];
    var c1 := companies[i];
    posted, zTerms := [], [];
    var j := i + 1;
    while j < |companies|
      invariant i + 1 <= j <= |companies|
      invariant posted == PairBlocks(inst, e, i, j)
      invariant zTerms == PairCosts(inst, e, i, j)
    {
      var c2 := companies[j];
      var z, z1, z2 := Z(e, i, j), And1(e, i, j), And2(e, i, j);
      var block :=
        AndConstraints(z1, Y(c1, b1), Y(c2, b2)) + AndConstraints(z2, Y(c1, b2), Y(c2, b1)) + [MaxEquality(z, [z1, z2])];
      var cost := PairCost(w, inst.popularity[c1], inst.popularity[c2]);
      assert cost == SlotCost(inst, Slot(e, i, j));
      posted := posted + block;
      zTerms := zTerms + [Term(cost, z)];
      j := j + 1;
    }
  }

  /** One more iteration of the outer loop adds the slots of edge `e`. */
  lemma EdgeSlotsStep(inst: Instance, e: nat)
    ensures Blocks(inst, EdgeSlots(|inst.companies|, e + 1))
         == Blocks(inst, EdgeSlots(|inst.companies|, e)) + Blocks(inst, CompanySlots(e, |inst.companies|, |inst.companies|))
    ensures CostTerms(inst, EdgeSlots(|inst.companies|, e + 1))
         == CostTerms(inst, EdgeSlots(|inst.companies|, e)) + CostTerms(inst, CompanySlots(e, |inst.companies|, |inst.companies|))
  {
    var n := |inst.companies|;
    BlocksAppend(inst, EdgeSlots(n, e), CompanySlots(e, n, n));
    CostTermsAppend(inst, EdgeSlots(n, e), CompanySlots(e, n, n));
  }

  lemma {:induction false} BlocksAppend(inst: Instance, a: seq<Slot>, b: seq<Slot>)
    ensures Blocks(inst, a + b) == Blocks(inst, a) + Blocks(inst, b)
  {
    if b != [] {
      assert (a + b)[..|a + b| - 1] == a + b[..|b| - 1];
      BlocksAppend(inst, a, b[..|b| - 1]);
    } else {
      assert a + b == a;
    }
  }

  lemma {:induction false} CostTermsAppend(inst: Instance, a: seq<Slot>, b: seq<Slot>)
    ensures CostTerms(inst, a + b) == CostTerms(inst, a) + CostTerms(inst, b)
  {
    if b != [] {
      assert (a + b)[..|a + b| - 1] == a + b[..|b| - 1];
      CostTermsAppend(inst, a, b[..|b| - 1]);
    } else {
      assert a + b == a;
    }
  }

  /**
   * Step 5: only an OPTIMAL or FEASIBLE answer is read; then every (c, b) with
   * y[c, b] = 1 is listed, company by company in selection order.
   */
  method ExtractAssignment(inst: Instance, response: SolveResponse) returns (placed: Option<seq<(string, int)>>)
    ensures placed.Some? <==> Answered(response.status)
    ensures placed.Some? ==> placed.value == Assignment(inst.companies, inst.booths, response.values)
  {
    if !(response.status == Optimal || response.status == Feasible) {
      return None;
    }
    var companies, booths, val := inst.companies, inst.booths, response.values;
    var out: seq<(string, int)> := [];
    var k := 0;
    while k < |companies|
      invariant 0 <= k <= |companies|
      invariant out == Assignment(companies[..k], booths, val)
    {
      var c := companies[k];
      assert companies[..k + 1][..k] == companies[..k];
      var base := out;
      var t := 0;
      while t < |booths|
        invariant 0 <= t <= |booths|
        invariant out == base + RowAssignment(c, booths[..t], val)
      {
        var b := booths[t];
        assert booths[..t + 1][..t] == booths[..t];
        if val(Y(c, b)) == 1 {
          out := out + [(c, b)];
        }
        t := t + 1;
      }
      assert booths[..t] == booths;
      k := k + 1;
    }
    assert companies[..k] == companies;
    return Some(out);
  }
}
