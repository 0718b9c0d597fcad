/**
 * The optimizer script end to end: detect the conflicting booth pairs, weigh
 * them, select the companies and their popularity, post the assignment model,
 * hand it to the engine and read the assignment back. The spreadsheet reads
 * become the `layout` and `rows` parameters and the engine is the `solve`
 * parameter.
 */
module Optimizer {
  import opened Common
  import opened CpSat
  import opened BoothConflicts
  import opened Formulation
  import opened FormulationProofs

  /** How many company names the script keeps (main.py:82). */
  const MaxCompanies: nat := 50

  /** A row of the company sheet: the "Company" cell (None when empty) and the "Popularity" cell. */
  datatype CompanyRow = CompanyRow(name: Option<string>, popularity: real)

  function Names(rows: seq<CompanyRow>): (names: seq<Option<string>>)
    ensures |names| == |rows| && forall k :: 0 <= k < |rows| ==> names[k] == rows[k].name
  {
    seq(|rows|, k requires 0 <= k < |rows| => rows[k].name)
  }

  /** `column.dropna().tolist()`: the present names, in sheet order. */
  function Present(names: seq<Option<string>>): seq<string>
  {
    if names == [] then []
    else
      var rest := Present(names[..|names| - 1]);
      match names[|names| - 1]
      case None => rest
      case Some(c) => rest + [c]
  }

  /** `...[:50]`: the first fifty present names. */
  function SelectCompanies(names: seq<Option<string>>): seq<string>
  {
    var present := Present(names);
    if |present| <= MaxCompanies then present else present[..MaxCompanies]
  }

  /** `dict(zip(names, popularity))`: later rows overwrite earlier rows with the same name. */
  function PopularityTable(rows: seq<CompanyRow>): map<string, real>
  {
    if rows == [] then map[]
    else
      var table := PopularityTable(rows[..|rows| - 1]);
      var last := rows[|rows| - 1];
      match last.name
      case None => table
      case Some(c) => table[c := last.popularity]
  }

  lemma {:induction false} PresentMembership(names: seq<Option<string>>)
    ensures forall c :: c in Present(names) <==> Some(c) in names
  {
    if names != [] {
      var p := names[..|names| - 1];
      PresentMembership(p);
      assert names == p + [names[|names| - 1]];
    }
  }

  /** The selection keeps the first fifty present names, in order, and nothing else. */
  lemma SelectionIsPrefix(names: seq<Option<string>>)
    ensures |SelectCompanies(names)| == if |Present(names)| <= MaxCompanies then |Present(names)| else MaxCompanies
    ensures SelectCompanies(names) == Present(names)[..|SelectCompanies(names)|]
    ensures forall c :: c in SelectCompanies(names) ==> Some(c) in names
  {
    PresentMembership(names);
    var present := Present(names);
    assert present[..|present|] == present;
    forall c | c in SelectCompanies(names) ensures c in present {
      var k :| 0 <= k < |SelectCompanies(names)| && SelectCompanies(names)[k] == c;
      assert present[k] == c;
    }
  }

  /** The popularity table has an entry for every named row, and its value is the last such row's. */
  lemma {:induction false} PopularityLastWins(rows: seq<CompanyRow>, c: string)
    ensures c in PopularityTable(rows) <==> Some(c) in Names(rows)
    ensures forall k :: 0 <= k < |rows| && rows[k].name == Some(c) &&
                        (forall l :: k < l < |rows| ==> rows[l].name != Some(c))
                        ==> PopularityTable(rows)[c] == rows[k].popularity
  {
    if rows != [] {
      var p := rows[..|rows| - 1];
      PopularityLastWins(p, c);
      assert Names(rows) == Names(p) + [rows[|rows| - 1].name];
      forall k | 0 <= k < |rows| && rows[k].name == Some(c) && (forall l :: k < l < |rows| ==> rows[l].name != Some(c))
        ensures PopularityTable(rows)[c] == rows[k].popularity
      {
        if k < |p| {
          assert rows[|rows| - 1].name != Some(c);
          assert forall l :: k < l < |p| ==> p[l].name != Some(c) by {
            forall l | k < l < |p| ensures p[l].name != Some(c) {
              assert p[l] == rows[l];
            }
          }
          assert p[k] == rows[k];
        }
      }
    }
  }

  /** The model the script posts for a layout and a company sheet. */
  function LayoutInstance(layout: seq<Booth>, rows: seq<CompanyRow>): Instance
  {
    var backToBack, sameColumn := Detected(layout, BackToBack), Detected(layout, SameColumn);
    Instance(
      SelectCompanies(Names(rows)),
      Ids(layout),
      backToBack + sameColumn,
      ConflictWeights(backToBack, sameColumn),
      PopularityTable(rows))
  }

  /** Every lookup the script makes on such an instance succeeds. */
  lemma LayoutInstanceWellFormed(layout: seq<Booth>, rows: seq<CompanyRow>)
    ensures WellFormed(LayoutInstance(layout, rows))
  {
    var inst := LayoutInstance(layout, rows);
    forall e | e in inst.edges ensures e in inst.weights && e.0 in inst.booths && e.1 in inst.booths {
      var rel := if e in Detected(layout, BackToBack) then BackToBack else SameColumn;
      DetectedMembership(layout, rel, e.0, e.1);
      var i, j :| 0 <= i < j < |layout| && layout[i].id == e.0 && layout[j].id == e.1 && Classify(layout[i], layout[j]) == rel;
      assert inst.booths[i] == e.0 && inst.booths[j] == e.1;
    }
    SelectionIsPrefix(Names(rows));
    forall c | c in inst.companies ensures c in inst.popularity {
      PopularityLastWins(rows, c);
    }
  }

  /**
   * The script: steps 2 to 5. The answer is read exactly when the engine
   * reports OPTIMAL or FEASIBLE; the assignment is the one the engine's values
   * give, read booth by booth; it gives each selected
   * company, in order, its own booth of the layout; and under OPTIMAL no
   * one-to-one placement has smaller congestion.
   */
  method OptimizeLayout(layout: seq<Booth>, rows: seq<CompanyRow>, solve: CpModel -> SolveResponse)
    returns (placed: Option<seq<(string, int)>>)
    requires DistinctIds(layout) && SoundEngine(solve)
    ensures var inst := LayoutInstance(layout, rows);
      placed.Some? <==> Answered(solve(ModelOf(inst)).status)
    ensures var inst := LayoutInstance(layout, rows);
      placed.Some? ==>
        && placed.value == Assignment(inst.companies, inst.booths, solve(ModelOf(inst)).values)
        && OneToOne(inst.companies, inst.booths, placed.value)
    ensures var inst := LayoutInstance(layout, rows);
      placed.Some? && solve(ModelOf(inst)).status == Optimal ==>
        forall other :: OneToOne(inst.companies, inst.booths, other) ==> Congestion(inst, placed.value) <= Congestion(inst, other)
  {
    var backToBack, sameColumn := DetectRelationships(layout);
    var weights, conflictEdges := BuildWeights(backToBack, sameColumn);
    ConflictWeightsUnique(weights, backToBack, sameColumn);
    DetectedEdges(layout);
    var companies := SelectCompanies(Names(rows));
    var popularity := PopularityTable(rows);
    var inst := Instance(companies, Ids(layout), conflictEdges, weights, popularity);
    assert inst == LayoutInstance(layout, rows);
    LayoutInstanceWellFormed(layout, rows);

    var model := BuildModel(inst);
    var response := solve(model);
    placed := ExtractAssignment(inst, response);
    if placed.Some? {
      AnsweredAssignment(inst, solve);
    }
  }

  /** What an answered call of a sound engine gives the script's read-out. */
  lemma AnsweredAssignment(inst: Instance, solve: CpModel -> SolveResponse)
    requires WellFormed(inst) && NoDuplicates(inst.booths) && SoundEngine(solve)
    requires Answered(solve(ModelOf(inst)).status)
    ensures var best := Assignment(inst.companies, inst.booths, solve(ModelOf(inst)).values);
      && OneToOne(inst.companies, inst.booths, best)
      && (solve(ModelOf(inst)).status == Optimal ==>
            forall other :: OneToOne(inst.companies, inst.booths, other) ==> Congestion(inst, best) <= Congestion(inst, other))
  {
    SolutionIsOneToOne(inst, solve(ModelOf(inst)).values);
    if solve(ModelOf(inst)).status == Optimal {
      forall other | OneToOne(inst.companies, inst.booths, other)
        ensures Congestion(inst, Assignment(inst.companies, inst.booths, solve(ModelOf(inst)).values)) <= Congestion(inst, other)
      {
        OptimalIsLeastCongested(inst, solve, other);
      }
    }
  }
}
