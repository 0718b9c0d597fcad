/**
 * What the model posted by the optimizer script means. Any 0/1 values meeting
 * its constraints place every company on exactly one booth and no two companies
 * on one booth; the `z` of a slot is 1 exactly when the slot's two companies sit
 * on the slot's edge; the objective is then the congestion of the read-out
 * assignment; and an OPTIMAL answer has the least congestion of all one-to-one
 * placements.
 */
module FormulationProofs {
  import opened Common
  import opened CpSat
  import opened Formulation

  // ---------------------------------------------------------------------
  // The slots: every edge and every company pair i < j, once, in loop order
  // ---------------------------------------------------------------------

  lemma {:induction false} PairSlotsMembership(e: nat, i: nat, j: nat, s: Slot)
    requires i < j
    ensures s in PairSlots(e, i, j) <==> s.edge == e && s.i == i && i < s.j < j
    decreases j
  {
    if j > i + 1 {
      PairSlotsMembership(e, i, j - 1, s);
      assert s in PairSlots(e, i, j) <==> s in PairSlots(e, i, j - 1) || s == Slot(e, i, j - 1);
    }
  }

  lemma {:induction false} CompanySlotsMembership(e: nat, n: nat, i: nat, s: Slot)
    requires i <= n
    ensures s in CompanySlots(e, n, i) <==> s.edge == e && s.i < i && s.i < s.j < n
  {
    if i > 0 {
      CompanySlotsMembership(e, n, i - 1, s);
      PairSlotsMembership(e, i - 1, n, s);
    }
  }

  lemma {:induction false} EdgeSlotsMembership(n: nat, e: nat, s: Slot)
    ensures s in EdgeSlots(n, e) <==> s.edge < e && s.i < s.j < n
  {
    if e > 0 {
      var earlier, last := EdgeSlots(n, e - 1), CompanySlots(e - 1, n, n);
      EdgeSlotsMembership(n, e - 1, s);
      CompanySlotsMembership(e - 1, n, n, s);
      assert s in EdgeSlots(n, e) <==> s in earlier || s in last;
    }
  }

  /** The objective loop visits every edge and every pair of company positions i < j. */
  lemma SlotsMembership(inst: Instance)
    ensures forall s :: s in Slots(inst) <==> ValidSlot(inst, s)
  {
    forall s ensures s in Slots(inst) <==> ValidSlot(inst, s) {
      EdgeSlotsMembership(|inst.companies|, |inst.edges|, s);
    }
  }

  /** Loop order: edge first, then the first company, then the second. */
  predicate SlotBefore(a: Slot, b: Slot)
  {
    a.edge < b.edge || (a.edge == b.edge && (a.i < b.i || (a.i == b.i && a.j < b.j)))
  }

  predicate InLoopOrder(slots: seq<Slot>)
  {
    forall k, l :: 0 <= k < l < |slots| ==> SlotBefore(slots[k], slots[l])
  }

  lemma OrderAppend(a: seq<Slot>, b: seq<Slot>)
    requires InLoopOrder(a) && InLoopOrder(b)
    requires forall x, y :: x in a && y in b ==> SlotBefore(x, y)
    ensures InLoopOrder(a + b)
  {
    forall k, l | 0 <= k < l < |a + b| ensures SlotBefore((a + b)[k], (a + b)[l]) {
      if l < |a| {
        assert (a + b)[k] == a[k] && (a + b)[l] == a[l];
      } else if k >= |a| {
        assert (a + b)[k] == b[k - |a|] && (a + b)[l] == b[l - |a|];
      } else {
        assert (a + b)[k] == a[k] && (a + b)[l] == b[l - |a|];
      }
    }
  }

  lemma {:induction false} PairSlotsOrdered(e: nat, i: nat, j: nat)
    requires i < j
    ensures InLoopOrder(PairSlots(e, i, j))
    decreases j
  {
    if j > i + 1 {
      var before := PairSlots(e, i, j - 1);
      PairSlotsOrdered(e, i, j - 1);
      forall x, y | x in before && y in [Slot(e, i, j - 1)] ensures SlotBefore(x, y) {
        PairSlotsMembership(e, i, j - 1, x);
      }
      OrderAppend(before, [Slot(e, i, j - 1)]);
    }
  }

  lemma {:induction false} CompanySlotsOrdered(e: nat, n: nat, i: nat)
    requires i <= n
    ensures InLoopOrder(CompanySlots(e, n, i))
  {
    if i > 0 {
      var earlier, pairs := CompanySlots(e, n, i - 1), PairSlots(e, i - 1, n);
      CompanySlotsOrdered(e, n, i - 1);
      PairSlotsOrdered(e, i - 1, n);
      forall x, y | x in earlier && y in pairs ensures SlotBefore(x, y) {
        CompanySlotsMembership(e, n, i - 1, x);
        PairSlotsMembership(e, i - 1, n, y);
      }
      OrderAppend(earlier, pairs);
    }
  }

  lemma {:induction false} EdgeSlotsOrdered(n: nat, e: nat)
    ensures InLoopOrder(EdgeSlots(n, e))
  {
    if e > 0 {
      var earlier, slots := EdgeSlots(n, e - 1), CompanySlots(e - 1, n, n);
      EdgeSlotsOrdered(n, e - 1);
      CompanySlotsOrdered(e - 1, n, n);
      forall x, y | x in earlier && y in slots ensures SlotBefore(x, y) {
        EdgeSlotsMembership(n, e - 1, x);
        CompanySlotsMembership(e - 1, n, n, y);
      }
      OrderAppend(earlier, slots);
    }
  }

  /** Every (edge, i, j) slot is visited exactly once, in loop order. */
  lemma SlotsOnceInOrder(inst: Instance)
    ensures InLoopOrder(Slots(inst)) && NoDuplicates(Slots(inst))
  {
    EdgeSlotsOrdered(|inst.companies|, |inst.edges|);
  }

  // ---------------------------------------------------------------------
  // Sums of 0/1 variables
  // ---------------------------------------------------------------------

  lemma {:induction false} EvalBoothTerms(c: string, bs: seq<int>, val: Values)
    requires ZeroOne(val)
    ensures Eval(BoothTerms(c, bs), val) == |RowAssignment(c, bs, val)|
  {
    if bs != [] {
      var p := bs[..|bs| - 1];
      var t := BoothTerms(c, bs);
      assert t == BoothTerms(c, p) + [Term(1, Y(c, bs[|bs| - 1]))];
      assert t[..|t| - 1] == BoothTerms(c, p);
      EvalBoothTerms(c, p, val);
      assert 0 <= val(Y(c, bs[|bs| - 1])) <= 1;
    }
  }

  lemma {:induction false} RowAssignmentMembership(c: string, bs: seq<int>, val: Values)
    ensures forall p :: p in RowAssignment(c, bs, val) <==> p.0 == c && p.1 in bs && val(Y(c, p.1)) == 1
  {
    if bs != [] {
      var q := bs[..|bs| - 1];
      RowAssignmentMembership(c, q, val);
      assert bs == q + [bs[|bs| - 1]];
    }
  }

  lemma {:induction false} EvalCompanyTermsNonNegative(cs: seq<string>, b: int, val: Values)
    requires ZeroOne(val)
    ensures Eval(CompanyTerms(cs, b), val) >= 0
  {
    if cs != [] {
      var p := cs[..|cs| - 1];
      var t := CompanyTerms(cs, b);
      assert t[..|t| - 1] == CompanyTerms(p, b);
      EvalCompanyTermsNonNegative(p, b, val);
      assert 0 <= val(Y(cs[|cs| - 1], b));
    }
  }

  lemma {:induction false} EvalCompanyTermsAtLeastOne(cs: seq<string>, b: int, val: Values, k: nat)
    requires ZeroOne(val) && k < |cs|
    ensures Eval(CompanyTerms(cs, b), val) >= val(Y(cs[k], b))
  {
    var p := cs[..|cs| - 1];
    var t := CompanyTerms(cs, b);
    assert t[..|t| - 1] == CompanyTerms(p, b);
    if k < |cs| - 1 {
      EvalCompanyTermsAtLeastOne(p, b, val, k);
      assert 0 <= val(Y(cs[|cs| - 1], b));
    } else {
      EvalCompanyTermsNonNegative(p, b, val);
    }
  }

  /** Two positions of the company list both on booth b make its column sum at least 2. */
  lemma {:induction false} EvalCompanyTermsAtLeastTwo(cs: seq<string>, b: int, val: Values, k: nat, l: nat)
    requires ZeroOne(val) && k < l < |cs|
    ensures Eval(CompanyTerms(cs, b), val) >= val(Y(cs[k], b)) + val(Y(cs[l], b))
  {
    var p := cs[..|cs| - 1];
    var t := CompanyTerms(cs, b);
    assert t[..|t| - 1] == CompanyTerms(p, b);
    if l < |cs| - 1 {
      EvalCompanyTermsAtLeastTwo(p, b, val, k, l);
      assert 0 <= val(Y(cs[|cs| - 1], b));
    } else {
      EvalCompanyTermsAtLeastOne(p, b, val, k);
    }
  }

  lemma {:induction false} EvalCompanyTermsZero(cs: seq<string>, b: int, val: Values)
    requires forall k :: 0 <= k < |cs| ==> val(Y(cs[k], b)) == 0
    ensures Eval(CompanyTerms(cs, b), val) == 0
  {
    if cs != [] {
      var p := cs[..|cs| - 1];
      var t := CompanyTerms(cs, b);
      assert t[..|t| - 1] == CompanyTerms(p, b);
      EvalCompanyTermsZero(p, b, val);
    }
  }

  /** A column with at most one 1 sums to at most 1. */
  lemma {:induction false} EvalCompanyTermsAtMostOne(cs: seq<string>, b: int, val: Values)
    requires ZeroOne(val)
    requires forall k, l :: 0 <= k < l < |cs| ==> val(Y(cs[k], b)) == 0 || val(Y(cs[l], b)) == 0
    ensures Eval(CompanyTerms(cs, b), val) <= 1
  {
    if cs != [] {
      var p := cs[..|cs| - 1];
      var t := CompanyTerms(cs, b);
      assert t[..|t| - 1] == CompanyTerms(p, b);
      var last := cs[|cs| - 1];
      if val(Y(last, b)) == 0 {
        EvalCompanyTermsAtMostOne(p, b, val);
      } else {
        forall k | 0 <= k < |p| ensures val(Y(p[k], b)) == 0 {
          assert p[k] == cs[k];
        }
        EvalCompanyTermsZero(p, b, val);
      }
    }
  }

  // ---------------------------------------------------------------------
  // The posted constraints, family by family
  // ---------------------------------------------------------------------

  /** "Each company gets one booth": the equality of every company holds. */
  predicate RowsHold(inst: Instance, val: Values)
  {
    forall k :: 0 <= k < |inst.companies| ==> Eval(BoothTerms(inst.companies[k], inst.booths), val) == 1
  }

  /** "Each booth gets at most one company": the inequality of every booth holds. */
  predicate ColumnsHold(inst: Instance, val: Values)
  {
    forall t :: 0 <= t < |inst.booths| ==> Eval(CompanyTerms(inst.companies, inst.booths[t]), val) <= 1
  }

  predicate BlockHolds(inst: Instance, s: Slot, val: Values)
  {
    forall c :: c in Block(inst, s) ==> Holds(c, val)
  }

  /** The seven constraints of every slot hold. */
  predicate BlocksHold(inst: Instance, val: Values)
  {
    forall s :: s in Slots(inst) ==> BlockHolds(inst, s, val)
  }

  lemma {:induction false} BlocksMembership(inst: Instance, slots: seq<Slot>)
    ensures forall c :: c in Blocks(inst, slots) <==> exists s :: s in slots && c in Block(inst, s)
  {
    if slots != [] {
      var p := slots[..|slots| - 1];
      BlocksMembership(inst, p);
      assert Blocks(inst, slots) == Blocks(inst, p) + Block(inst, slots[|slots| - 1]);
    }
  }

  /** A 0/1 value set is a solution exactly when the three families hold. */
  lemma ModelMeaning(inst: Instance, val: Values)
    requires WellFormed(inst)
    ensures Solution(ModelOf(inst), val) <==>
              ZeroOne(val) && RowsHold(inst, val) && ColumnsHold(inst, val) && BlocksHold(inst, val)
  {
    if Solution(ModelOf(inst), val) {
      SolutionFamilies(inst, val);
    }
    if ZeroOne(val) && RowsHold(inst, val) && ColumnsHold(inst, val) && BlocksHold(inst, val) {
      FamiliesSolution(inst, val);
    }
  }

  lemma SolutionFamilies(inst: Instance, val: Values)
    requires WellFormed(inst) && Solution(ModelOf(inst), val)
    ensures RowsHold(inst, val) && ColumnsHold(inst, val) && BlocksHold(inst, val)
  {
    var cr := CompanyRows(inst.companies, inst.booths);
    var br := BoothRows(inst.companies, inst.booths);
    var bl := Blocks(inst, Slots(inst));
    var all := ModelOf(inst).constraints;
    assert all == cr + br + bl;
    forall k | 0 <= k < |inst.companies|
      ensures Eval(BoothTerms(inst.companies[k], inst.booths), val) == 1
    {
      assert all[k] == cr[k] && all[k] in all;
    }
    forall t | 0 <= t < |inst.booths|
      ensures Eval(CompanyTerms(inst.companies, inst.booths[t]), val) <= 1
    {
      assert all[|cr| + t] == br[t] && all[|cr| + t] in all;
    }
    BlocksMembership(inst, Slots(inst));
    forall s, c | s in Slots(inst) && c in Block(inst, s) ensures Holds(c, val) {
      assert c in bl;
    }
  }

  lemma FamiliesSolution(inst: Instance, val: Values)
    requires WellFormed(inst)
    requires ZeroOne(val) && RowsHold(inst, val) && ColumnsHold(inst, val) && BlocksHold(inst, val)
    ensures Solution(ModelOf(inst), val)
  {
    var cr := CompanyRows(inst.companies, inst.booths);
    var br := BoothRows(inst.companies, inst.booths);
    var bl := Blocks(inst, Slots(inst));
    RowsConstraintsHold(inst, val);
    ColumnsConstraintsHold(inst, val);
    BlocksConstraintsHold(inst, val);
    assert ModelOf(inst).constraints == cr + br + bl;
  }

  lemma RowsConstraintsHold(inst: Instance, val: Values)
    requires RowsHold(inst, val)
    ensures forall c :: c in CompanyRows(inst.companies, inst.booths) ==> Holds(c, val)
  {
    var cr := CompanyRows(inst.companies, inst.booths);
    forall c | c in cr ensures Holds(c, val) {
      var k :| 0 <= k < |cr| && cr[k] == c;
    }
  }

  lemma ColumnsConstraintsHold(inst: Instance, val: Values)
    requires ColumnsHold(inst, val)
    ensures forall c :: c in BoothRows(inst.companies, inst.booths) ==> Holds(c, val)
  {
    var br := BoothRows(inst.companies, inst.booths);
    forall c | c in br ensures Holds(c, val) {
      var t :| 0 <= t < |br| && br[t] == c;
    }
  }

  lemma BlocksConstraintsHold(inst: Instance, val: Values)
    requires BlocksHold(inst, val)
    ensures forall c :: c in Blocks(inst, Slots(inst)) ==> Holds(c, val)
  {
    BlocksMembership(inst, Slots(inst));
  }

  // ---------------------------------------------------------------------
  // Every solution places companies one-to-one
  // ---------------------------------------------------------------------

  /** With every row summing to 1, the read-out lists exactly one booth per company, in company order. */
  lemma {:induction false} AssignmentRows(cs: seq<string>, bs: seq<int>, val: Values)
    requires forall k :: 0 <= k < |cs| ==> |RowAssignment(cs[k], bs, val)| == 1
    ensures |Assignment(cs, bs, val)| == |cs|
    ensures forall k :: 0 <= k < |cs| ==> RowAssignment(cs[k], bs, val) == [Assignment(cs, bs, val)[k]]
  {
    if cs != [] {
      var p := cs[..|cs| - 1];
      var last := cs[|cs| - 1];
      assert forall k :: 0 <= k < |p| ==> p[k] == cs[k];
      AssignmentRows(p, bs, val);
      var ap, r := Assignment(p, bs, val), RowAssignment(last, bs, val);
      var a := Assignment(cs, bs, val);
      assert a == ap + r && |r| == 1;
      forall k | 0 <= k < |cs| ensures RowAssignment(cs[k], bs, val) == [a[k]] {
        if k < |p| {
          assert cs[k] == p[k] && a[k] == ap[k];
          assert RowAssignment(p[k], bs, val) == [ap[k]];
        } else {
          assert a[k] == r[0];
        }
      }
    }
  }

  /**
   * Under any solution of the posted model, the read-out gives company k the
   * k-th entry, on a booth of the layout whose `y` is 1, and no booth twice.
   */
  lemma SolutionIsOneToOne(inst: Instance, val: Values)
    requires WellFormed(inst) && Solution(ModelOf(inst), val)
    ensures OneToOne(inst.companies, inst.booths, Assignment(inst.companies, inst.booths, val))
    ensures forall k :: 0 <= k < |inst.companies| ==>
              RowAssignment(inst.companies[k], inst.booths, val) == [Assignment(inst.companies, inst.booths, val)[k]]
  {
    var cs, bs := inst.companies, inst.booths;
    SolutionFamilies(inst, val);
    forall k | 0 <= k < |cs| ensures |RowAssignment(cs[k], bs, val)| == 1 {
      EvalBoothTerms(cs[k], bs, val);
    }
    AssignmentRows(cs, bs, val);
    var a := Assignment(cs, bs, val);
    forall k | 0 <= k < |a| ensures a[k].0 == cs[k] && a[k].1 in bs && val(Y(cs[k], a[k].1)) == 1 {
      RowAssignmentMembership(cs[k], bs, val);
      assert a[k] in RowAssignment(cs[k], bs, val);
    }
    forall k, l | 0 <= k < l < |a| ensures a[k].1 != a[l].1 {
      DistinctBooths(inst, val, a, k, l);
    }
  }

  /** Two companies on one booth would make that booth's column sum 2. */
  lemma DistinctBooths(inst: Instance, val: Values, a: seq<(string, int)>, k: nat, l: nat)
    requires ZeroOne(val) && ColumnsHold(inst, val)
    requires k < l < |a| == |inst.companies|
    requires a[k].1 in inst.booths && val(Y(inst.companies[k], a[k].1)) == 1
    requires val(Y(inst.companies[l], a[l].1)) == 1
    ensures a[k].1 != a[l].1
  {
    var b := a[k].1;
    var t :| 0 <= t < |inst.booths| && inst.booths[t] == b;
    EvalCompanyTermsAtLeastTwo(inst.companies, b, val, k, l);
    assert Eval(CompanyTerms(inst.companies, inst.booths[t]), val) <= 1;
  }

  /** The model has no solution when a company name is selected twice. */
  lemma SolutionCompaniesDistinct(inst: Instance, val: Values)
    requires WellFormed(inst) && Solution(ModelOf(inst), val)
    ensures NoDuplicates(inst.companies)
  {
    SolutionIsOneToOne(inst, val);
    var a := Assignment(inst.companies, inst.booths, val);
    forall k, l | 0 <= k < l < |inst.companies| ensures inst.companies[k] != inst.companies[l] {
      assert a[k].1 != a[l].1;
      assert RowAssignment(inst.companies[k], inst.booths, val) == [a[k]];
      assert RowAssignment(inst.companies[l], inst.booths, val) == [a[l]];
    }
  }

  lemma {:induction false} DistinctCardinality(d: seq<int>)
    requires NoDuplicates(d)
    ensures |(set x | x in d)| == |d|
  {
    if d != [] {
      var p := d[..|d| - 1];
      DistinctCardinality(p);
      assert (set x | x in d) == (set x | x in p) + {d[|d| - 1]};
    }
  }

  lemma {:induction false} CardinalityAtMostLength(d: seq<int>)
    ensures |(set x | x in d)| <= |d|
  {
    if d != [] {
      var p := d[..|d| - 1];
      CardinalityAtMostLength(p);
      assert (set x | x in d) == (set x | x in p) + {d[|d| - 1]};
    }
  }

  /** The model has no solution when there are more companies than booths. */
  lemma SolutionNeedsEnoughBooths(inst: Instance, val: Values)
    requires WellFormed(inst) && Solution(ModelOf(inst), val)
    ensures |inst.companies| <= |inst.booths|
  {
    SolutionIsOneToOne(inst, val);
    var a := Assignment(inst.companies, inst.booths, val);
    var d := seq(|a|, k requires 0 <= k < |a| => a[k].1);
    assert forall x :: x in d ==> x in inst.booths;
    DistinctPicksFit(d, inst.booths);
  }

  /** Distinct numbers all drawn from a list are no more than the list is long. */
  lemma DistinctPicksFit(d: seq<int>, from: seq<int>)
    requires NoDuplicates(d) && forall x :: x in d ==> x in from
    ensures |d| <= |from|
  {
    DistinctCardinality(d);
    CardinalityAtMostLength(from);
    var used, all := (set x | x in d), (set x | x in from);
    assert used <= all;
    assert all == used + (all - used);
  }

  // ---------------------------------------------------------------------
  // Linearised conjunction and disjunction
  // ---------------------------------------------------------------------

  /** 1 exactly when both Boolean values are 1. */
  function AndOf(a: int, b: int): int
  {
    if a == 1 && b == 1 then 1 else 0
  }

  /** 1 exactly when one of the Boolean values is 1. */
  function OrOf(a: int, b: int): int
  {
    if a == 1 || b == 1 then 1 else 0
  }

  lemma EvalSmall(t1: Term, t2: Term, t3: Term, val: Values)
    ensures Eval([t1, t2], val) == t1.coef * val(t1.v) + t2.coef * val(t2.v)
    ensures Eval([t1, t2, t3], val) == t1.coef * val(t1.v) + t2.coef * val(t2.v) + t3.coef * val(t3.v)
  {
    assert [t1][..0] == [];
    assert Eval([t1], val) == t1.coef * val(t1.v);
    assert [t1, t2][..1] == [t1];
    assert Eval([t1, t2], val) == Eval([t1], val) + t2.coef * val(t2.v);
    assert [t1, t2, t3][..2] == [t1, t2];
    assert Eval([t1, t2, t3], val) == Eval([t1, t2], val) + t3.coef * val(t3.v);
  }

  /** `zz <= a`, `zz <= b`, `zz >= a + b - 1` over 0/1 values say exactly zz = a AND b. */
  lemma AndLinearization(zz: Var, a: Var, b: Var, val: Values)
    requires ZeroOne(val)
    ensures (forall c :: c in AndConstraints(zz, a, b) ==> Holds(c, val)) <==> val(zz) == AndOf(val(a), val(b))
  {
    EvalSmall(Term(1, zz), Term(-1, a), Term(-1, b), val);
    EvalSmall(Term(1, zz), Term(-1, b), Term(-1, a), val);
    var cs := AndConstraints(zz, a, b);
    assert Holds(cs[0], val) <==> val(zz) <= val(a);
    assert Holds(cs[1], val) <==> val(zz) <= val(b);
    assert Holds(cs[2], val) <==> val(zz) >= val(a) + val(b) - 1;
    assert 0 <= val(zz) <= 1 && 0 <= val(a) <= 1 && 0 <= val(b) <= 1;
  }

  /** `AddMaxEquality(z, [z1, z2])` over 0/1 values says exactly z = z1 OR z2. */
  lemma MaxLinearization(z: Var, z1: Var, z2: Var, val: Values)
    requires ZeroOne(val)
    ensures Holds(MaxEquality(z, [z1, z2]), val) <==> val(z) == OrOf(val(z1), val(z2))
  {
    assert [z1, z2][..1] == [z1];
    assert MaxOf([z1, z2], val) == if val(z2) > val(z1) then val(z2) else val(z1);
    assert 0 <= val(z1) <= 1 && 0 <= val(z2) <= 1;
  }

  /**
   * The seven constraints of a slot hold exactly when its two conjunction
   * helpers are the two orientations "c1 on b1 and c2 on b2", "c1 on b2 and c2
   * on b1", and its `z` is their disjunction.
   */
  lemma BlockSemantics(inst: Instance, s: Slot, val: Values)
    requires ZeroOne(val) && ValidSlot(inst, s)
    ensures
      var (b1, b2) := inst.edges[s.edge];
      var c1, c2 := inst.companies[s.i], inst.companies[s.j];
      BlockHolds(inst, s, val) <==>
        && val(And1(s.edge, s.i, s.j)) == AndOf(val(Y(c1, b1)), val(Y(c2, b2)))
        && val(And2(s.edge, s.i, s.j)) == AndOf(val(Y(c1, b2)), val(Y(c2, b1)))
        && val(ZOf(s)) == OrOf(val(And1(s.edge, s.i, s.j)), val(And2(s.edge, s.i, s.j)))
  {
    var (b1, b2) := inst.edges[s.edge];
    var c1, c2 := inst.companies[s.i], inst.companies[s.j];
    var z1, z2 := And1(s.edge, s.i, s.j), And2(s.edge, s.i, s.j);
    var first, second := AndConstraints(z1, Y(c1, b1), Y(c2, b2)), AndConstraints(z2, Y(c1, b2), Y(c2, b1));
    var max := MaxEquality(ZOf(s), [z1, z2]);
    assert Block(inst, s) == first + second + [max];
    AndLinearization(z1, Y(c1, b1), Y(c2, b2), val);
    AndLinearization(z2, Y(c1, b2), Y(c2, b1), val);
    MaxLinearization(ZOf(s), z1, z2, val);
    assert (forall c :: c in Block(inst, s) ==> Holds(c, val)) <==>
             (forall c :: c in first ==> Holds(c, val)) && (forall c :: c in second ==> Holds(c, val)) && Holds(max, val);
  }

  // ---------------------------------------------------------------------
  // The objective is the congestion of the read-out assignment
  // ---------------------------------------------------------------------

  /** Under a solution, y[c_k, b] is 1 for a layout booth b exactly when the read-out gives company k booth b. */
  lemma YAtAssignedBooth(inst: Instance, val: Values, k: nat, b: int)
    requires WellFormed(inst) && Solution(ModelOf(inst), val)
    requires k < |inst.companies| && b in inst.booths
    ensures |Assignment(inst.companies, inst.booths, val)| == |inst.companies|
    ensures val(Y(inst.companies[k], b)) == 1 <==> Assignment(inst.companies, inst.booths, val)[k].1 == b
  {
    SolutionIsOneToOne(inst, val);
    RowAssignmentMembership(inst.companies[k], inst.booths, val);
    if val(Y(inst.companies[k], b)) == 1 {
      assert (inst.companies[k], b) in RowAssignment(inst.companies[k], inst.booths, val);
    }
  }

  /** Under a solution, the `z` of a slot is 1 exactly when its two companies occupy its edge. */
  lemma ZIsOccupancy(inst: Instance, val: Values, s: Slot)
    requires WellFormed(inst) && Solution(ModelOf(inst), val) && ValidSlot(inst, s)
    ensures
      var placed := Assignment(inst.companies, inst.booths, val);
      |placed| == |inst.companies| &&
      val(ZOf(s)) == if Occupies(placed, inst.edges[s.edge], s.i, s.j) then 1 else 0
  {
    SolutionIsOneToOne(inst, val);
    SolutionFamilies(inst, val);
    SlotsMembership(inst);
    BlockSemantics(inst, s, val);
    var (b1, b2) := inst.edges[s.edge];
    assert inst.edges[s.edge] in inst.edges;
    YAtAssignedBooth(inst, val, s.i, b1);
    YAtAssignedBooth(inst, val, s.i, b2);
    YAtAssignedBooth(inst, val, s.j, b1);
    YAtAssignedBooth(inst, val, s.j, b2);
  }

  /** The objective terms of a list of slots add up to the congestion over those slots. */
  lemma {:induction false} EvalCostTerms(inst: Instance, slots: seq<Slot>, val: Values, placed: seq<(string, int)>)
    requires |placed| == |inst.companies|
    requires forall s :: s in slots && ValidSlot(inst, s) ==>
               val(ZOf(s)) == if Occupies(placed, inst.edges[s.edge], s.i, s.j) then 1 else 0
    ensures Eval(CostTerms(inst, slots), val) == CongestionOver(inst, slots, placed)
  {
    if slots != [] {
      var p := slots[..|slots| - 1];
      var t := CostTerms(inst, slots);
      assert t[..|t| - 1] == CostTerms(inst, p);
      EvalCostTerms(inst, p, val, placed);
    }
  }

  /**
   * Under any solution, the objective the engine minimises equals the
   * congestion of the assignment the script reads out: the sum, over conflict
   * edges and company pairs i < j sitting on the edge's two booths, of
   * int(w * p_i * p_j * 1000).
   */
  lemma ObjectiveIsCongestion(inst: Instance, val: Values)
    requires WellFormed(inst) && Solution(ModelOf(inst), val)
    ensures |Assignment(inst.companies, inst.booths, val)| == |inst.companies|
    ensures Eval(ModelOf(inst).objective, val) == Congestion(inst, Assignment(inst.companies, inst.booths, val))
  {
    var placed := Assignment(inst.companies, inst.booths, val);
    SolutionIsOneToOne(inst, val);
    forall s | s in Slots(inst) && ValidSlot(inst, s)
      ensures val(ZOf(s)) == if Occupies(placed, inst.edges[s.edge], s.i, s.j) then 1 else 0
    {
      ZIsOccupancy(inst, val, s);
    }
    EvalCostTerms(inst, Slots(inst), val, placed);
  }

  /** With no conflict edge there is nothing to pay: the objective is empty and every assignment costs 0. */
  lemma NoConflictsNoCost(inst: Instance, placed: seq<(string, int)>)
    requires WellFormed(inst) && inst.edges == [] && |placed| == |inst.companies|
    ensures ModelOf(inst).objective == [] && Congestion(inst, placed) == 0
  {
  }

  // ---------------------------------------------------------------------
  // Every one-to-one placement is a solution; OPTIMAL is least congested
  // ---------------------------------------------------------------------

  function YValue(placed: seq<(string, int)>, c: string, b: int): int
  {
    if (c, b) in placed then 1 else 0
  }

  function And1Value(inst: Instance, placed: seq<(string, int)>, e: nat, i: nat, j: nat): int
  {
    if e < |inst.edges| && i < |inst.companies| && j < |inst.companies| then
      AndOf(YValue(placed, inst.companies[i], inst.edges[e].0), YValue(placed, inst.companies[j], inst.edges[e].1))
    else 0
  }

  function And2Value(inst: Instance, placed: seq<(string, int)>, e: nat, i: nat, j: nat): int
  {
    if e < |inst.edges| && i < |inst.companies| && j < |inst.companies| then
      AndOf(YValue(placed, inst.companies[i], inst.edges[e].1), YValue(placed, inst.companies[j], inst.edges[e].0))
    else 0
  }

  /** The values that encode a placement: y from the placement, the helpers and z as the linearisation demands. */
  function PlacementValue(inst: Instance, placed: seq<(string, int)>, v: Var): int
  {
    match v
    case Y(c, b) => YValue(placed, c, b)
    case And1(e, i, j) => And1Value(inst, placed, e, i, j)
    case And2(e, i, j) => And2Value(inst, placed, e, i, j)
    case Z(e, i, j) => OrOf(And1Value(inst, placed, e, i, j), And2Value(inst, placed, e, i, j))
  }

  function PlacementValues(inst: Instance, placed: seq<(string, int)>): Values
  {
    v => PlacementValue(inst, placed, v)
  }

  lemma {:induction false} RowEmpty(c: string, bs: seq<int>, val: Values)
    requires forall k :: 0 <= k < |bs| ==> val(Y(c, bs[k])) != 1
    ensures RowAssignment(c, bs, val) == []
  {
    if bs != [] {
      RowEmpty(c, bs[..|bs| - 1], val);
    }
  }

  /** On distinct booths, a company whose y is 1 on exactly one booth b0 has the single row entry (c, b0). */
  lemma {:induction false} RowSingle(c: string, bs: seq<int>, val: Values, b0: int)
    requires NoDuplicates(bs) && b0 in bs
    requires forall k :: 0 <= k < |bs| ==> (val(Y(c, bs[k])) == 1 <==> bs[k] == b0)
    ensures RowAssignment(c, bs, val) == [(c, b0)]
  {
    var p := bs[..|bs| - 1];
    if bs[|bs| - 1] == b0 {
      RowEmpty(c, p, val);
    } else {
      assert b0 in p by {
        var k :| 0 <= k < |bs| && bs[k] == b0;
        assert p[k] == b0;
      }
      RowSingle(c, p, val, b0);
    }
  }

  /** Under the placement's values, y[c_k, b] is 1 exactly when the placement gives company k booth b. */
  lemma PlacementY(inst: Instance, placed: seq<(string, int)>, k: nat, b: int)
    requires NoDuplicates(inst.companies) && OneToOne(inst.companies, inst.booths, placed)
    requires k < |inst.companies|
    ensures PlacementValues(inst, placed)(Y(inst.companies[k], b)) == 1 <==> placed[k].1 == b
  {
    if (inst.companies[k], b) in placed {
      var m :| 0 <= m < |placed| && placed[m] == (inst.companies[k], b);
      assert inst.companies[m] == inst.companies[k];
    } else {
      assert placed[k] != (inst.companies[k], b);
    }
  }

  /**
   * The values encoding a one-to-one placement of distinct companies on
   * distinct booths meet every posted constraint, and the script reads that
   * very placement back from them.
   */
  lemma PlacementIsSolution(inst: Instance, placed: seq<(string, int)>)
    requires WellFormed(inst) && NoDuplicates(inst.companies) && NoDuplicates(inst.booths)
    requires OneToOne(inst.companies, inst.booths, placed)
    ensures Solution(ModelOf(inst), PlacementValues(inst, placed))
    ensures Assignment(inst.companies, inst.booths, PlacementValues(inst, placed)) == placed
  {
    var val := PlacementValues(inst, placed);
    assert ZeroOne(val);
    PlacementRows(inst, placed);
    PlacementColumns(inst, placed);
    PlacementBlocks(inst, placed);
    FamiliesSolution(inst, val);
  }

  /** The helpers and `z` of every slot take the values the linearisation forces. */
  lemma PlacementBlocks(inst: Instance, placed: seq<(string, int)>)
    ensures BlocksHold(inst, PlacementValues(inst, placed))
  {
    var val := PlacementValues(inst, placed);
    assert ZeroOne(val);
    SlotsMembership(inst);
    forall s | s in Slots(inst) ensures BlockHolds(inst, s, val) {
      var (b1, b2) := inst.edges[s.edge];
      var c1, c2 := inst.companies[s.i], inst.companies[s.j];
      assert val(Y(c1, b1)) == YValue(placed, c1, b1) && val(Y(c2, b2)) == YValue(placed, c2, b2);
      assert val(Y(c1, b2)) == YValue(placed, c1, b2) && val(Y(c2, b1)) == YValue(placed, c2, b1);
      assert val(And1(s.edge, s.i, s.j)) == And1Value(inst, placed, s.edge, s.i, s.j);
      assert val(And2(s.edge, s.i, s.j)) == And2Value(inst, placed, s.edge, s.i, s.j);
      BlockSemantics(inst, s, val);
    }
  }

  /** Each company's row of the placement's values holds its one booth, and the read-out is the placement. */
  lemma PlacementRows(inst: Instance, placed: seq<(string, int)>)
    requires NoDuplicates(inst.companies) && NoDuplicates(inst.booths)
    requires OneToOne(inst.companies, inst.booths, placed)
    ensures RowsHold(inst, PlacementValues(inst, placed))
    ensures Assignment(inst.companies, inst.booths, PlacementValues(inst, placed)) == placed
  {
    var val := PlacementValues(inst, placed);
    var cs, bs := inst.companies, inst.booths;
    assert ZeroOne(val);
    forall k | 0 <= k < |cs| ensures RowAssignment(cs[k], bs, val) == [placed[k]] {
      forall t | 0 <= t < |bs| ensures val(Y(cs[k], bs[t])) == 1 <==> bs[t] == placed[k].1 {
        PlacementY(inst, placed, k, bs[t]);
      }
      RowSingle(cs[k], bs, val, placed[k].1);
    }
    forall k | 0 <= k < |cs| ensures Eval(BoothTerms(cs[k], bs), val) == 1 {
      EvalBoothTerms(cs[k], bs, val);
    }
    AssignmentRows(cs, bs, val);
    var a := Assignment(cs, bs, val);
    forall k | 0 <= k < |cs| ensures a[k] == placed[k] {
      assert [a[k]] == RowAssignment(cs[k], bs, val) == [placed[k]];
    }
  }

  /** No booth holds two companies under the placement's values. */
  lemma PlacementColumns(inst: Instance, placed: seq<(string, int)>)
    requires NoDuplicates(inst.companies) && OneToOne(inst.companies, inst.booths, placed)
    ensures ColumnsHold(inst, PlacementValues(inst, placed))
  {
    var val := PlacementValues(inst, placed);
    var cs, bs := inst.companies, inst.booths;
    assert ZeroOne(val);
    forall t | 0 <= t < |bs| ensures Eval(CompanyTerms(cs, bs[t]), val) <= 1 {
      forall k, l | 0 <= k < l < |cs| ensures val(Y(cs[k], bs[t])) == 0 || val(Y(cs[l], bs[t])) == 0 {
        PlacementY(inst, placed, k, bs[t]);
        PlacementY(inst, placed, l, bs[t]);
      }
      EvalCompanyTermsAtMostOne(cs, bs[t], val);
    }
  }

  /**
   * When the engine answers OPTIMAL, the assignment the script reads out is
   * one-to-one and no one-to-one placement of the companies on the booths has
   * smaller congestion.
   */
  lemma OptimalIsLeastCongested(inst: Instance, solve: CpModel -> SolveResponse, placed: seq<(string, int)>)
    requires WellFormed(inst) && NoDuplicates(inst.booths) && SoundEngine(solve)
    requires solve(ModelOf(inst)).status == Optimal
    requires OneToOne(inst.companies, inst.booths, placed)
    ensures
      var best := Assignment(inst.companies, inst.booths, solve(ModelOf(inst)).values);
      OneToOne(inst.companies, inst.booths, best) && Congestion(inst, best) <= Congestion(inst, placed)
  {
    var m := ModelOf(inst);
    var found := solve(m).values;
    assert Solution(m, found);
    SolutionIsOneToOne(inst, found);
    SolutionCompaniesDistinct(inst, found);
    PlacementIsSolution(inst, placed);
    var val := PlacementValues(inst, placed);
    assert Eval(m.objective, found) <= Eval(m.objective, val);
    ObjectiveIsCongestion(inst, found);
    ObjectiveIsCongestion(inst, val);
  }

  /**
   * On distinct booths the posted model has a solution exactly when the
   * selected company names are distinct and there are no more of them than
   * booths.
   */
  lemma FeasibleIff(inst: Instance)
    requires WellFormed(inst) && NoDuplicates(inst.booths)
    ensures (exists val :: Solution(ModelOf(inst), val)) <==>
              NoDuplicates(inst.companies) && |inst.companies| <= |inst.booths|
  {
    if val :| Solution(ModelOf(inst), val) {
      SolutionCompaniesDistinct(inst, val);
      SolutionNeedsEnoughBooths(inst, val);
    }
    if NoDuplicates(inst.companies) && |inst.companies| <= |inst.booths| {
      var n := |inst.companies|;
      var placed := seq(n, k requires 0 <= k < n => (inst.companies[k], inst.booths[k]));
      assert OneToOne(inst.companies, inst.booths, placed);
      PlacementIsSolution(inst, placed);
    }
  }
}
