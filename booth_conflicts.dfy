/**
 * Step 2 of the optimizer script: inferring which booth pairs conflict from
 * their coordinates, and the weight each conflicting pair carries in the
 * objective. Coordinates are exact reals standing in for Python floats.
 */
module BoothConflicts {
  import opened Common

  /** One row of the layout table: a booth number and the centre of the booth. */
  datatype Booth = Booth(id: int, x: real, y: real)

  /** A pair of booth numbers, first booth first in layout order. */
  type Pair = (int, int)

  datatype Relation = BackToBack | SameColumn | Unrelated

  /** Horizontal distance between booths that face each other across an aisle. */
  const AisleGap: real := 1.5
  /** Vertical distance between booths stacked in one column. */
  const RowSpacing: real := 0.75
  /** Margin allowed around both distances. */
  const Tolerance: real := 0.25

  function Abs(r: real): real
  {
    if r < 0.0 then -r else r
  }

  /** Same row (vertical offset within tolerance), one aisle apart horizontally. Both bounds strict. */
  predicate BackToBackBand(dx: real, dy: real)
  {
    Abs(dy) < Tolerance && Abs(dx - AisleGap) < Tolerance
  }

  /** Same column (horizontal offset within tolerance), one row apart vertically. Both bounds strict. */
  predicate SameColumnBand(dx: real, dy: real)
  {
    Abs(dx) < Tolerance && Abs(dy - RowSpacing) < Tolerance
  }

  /** The class the detector gives a pair: back-to-back is tested first, same-column only otherwise. */
  function Classify(p: Booth, q: Booth): Relation
  {
    var dx := Abs(p.x - q.x);
    var dy := Abs(p.y - q.y);
    if BackToBackBand(dx, dy) then BackToBack
    else if SameColumnBand(dx, dy) then SameColumn
    else Unrelated
  }

  predicate DistinctIds(booths: seq<Booth>)
  {
    forall i, j :: 0 <= i < j < |booths| ==> booths[i].id != booths[j].id
  }

  function Ids(booths: seq<Booth>): (ids: seq<int>)
    ensures |ids| == |booths| && forall k :: 0 <= k < |booths| ==> ids[k] == booths[k].id
    ensures NoDuplicates(ids) <==> DistinctIds(booths)
  {
    seq(|booths|, k requires 0 <= k < |booths| => booths[k].id)
  }

  // ---------------------------------------------------------------------
  // What the detection loop produces, pair by pair in `combinations` order
  // ---------------------------------------------------------------------

  /** Pairs (booths[i], booths[k]) of class `rel` for i < k < j, in order of k. */
  function Row(booths: seq<Booth>, rel: Relation, i: nat, j: nat): seq<Pair>
    requires i < j <= |booths|
    decreases j
  {
    if j == i + 1 then []
    else
      Row(booths, rel, i, j - 1)
      + (if Classify(booths[i], booths[j - 1]) == rel then [(booths[i].id, booths[j - 1].id)] else [])
  }

  /** Pairs of class `rel` whose first booth is one of the first `i` rows. */
  function Scan(booths: seq<Booth>, rel: Relation, i: nat): seq<Pair>
    requires i <= |booths|
    decreases i, 0
  {
    if i == 0 then [] else ScanThrough(booths, rel, i - 1)
  }

  /** The pairs whose first booth is one of rows 0..r, r included. */
  function ScanThrough(booths: seq<Booth>, rel: Relation, r: nat): seq<Pair>
    requires r < |booths|
    decreases r, 1
  {
    Scan(booths, rel, r) + Row(booths, rel, r, |booths|)
  }

  /** Every pair of class `rel`, as the detection loop lists it. */
  function Detected(booths: seq<Booth>, rel: Relation): seq<Pair>
  {
    Scan(booths, rel, |booths|)
  }

  /** Rows i < j of the layout hold the booths `a` and `b`, in that order, and their class is `rel`. */
  ghost predicate RelatedAt(booths: seq<Booth>, rel: Relation, a: int, b: int)
  {
    exists i, j :: 0 <= i < j < |booths| && booths[i].id == a && booths[j].id == b && Classify(booths[i], booths[j]) == rel
  }

  /**
   * Step 2 of the script: every unordered pair of layout rows is examined once,
   * earlier row first; a pair goes to `backToBack` when it lies in the
   * back-to-back band and otherwise to `sameColumn` when it lies in the
   * same-column band. Booth numbers are unique, so looking a number up gives its own row.
   */
  method DetectRelationships(booths: seq<Booth>) returns (backToBack: seq<Pair>, sameColumn: seq<Pair>)
    requires DistinctIds(booths)
    ensures backToBack == Detected(booths, BackToBack)
    ensures sameColumn == Detected(booths, SameColumn)
  {
    backToBack, sameColumn := [], [];
    var i := 0;
    while i < |booths|
      invariant 0 <= i <= |booths|
      invariant backToBack == Scan(booths, BackToBack, i)
      invariant sameColumn == Scan(booths, SameColumn, i)
    {
      var j := i + 1;
      while j < |booths|
        invariant i + 1 <= j <= |booths|
        invariant backToBack == Scan(booths, BackToBack, i) + Row(booths, BackToBack, i, j)
        invariant sameColumn == Scan(booths, SameColumn, i) + Row(booths, SameColumn, i, j)
      {
        var b1, b2 := booths[i], booths[j];
        var dx := Abs(b1.x - b2.x);
        var dy := Abs(b1.y - b2.y);
        if Abs(dy) < Tolerance && Abs(dx - AisleGap) < Tolerance {
          backToBack := backToBack + [(b1.id, b2.id)];
        } else if Abs(dx) < Tolerance && Abs(dy - RowSpacing) < Tolerance {
          sameColumn := sameColumn + [(b1.id, b2.id)];
        }
        j := j + 1;
      }
      i := i + 1;
    }
  }

  // ---------------------------------------------------------------------
  // Properties of the classification
  // ---------------------------------------------------------------------

  /** Only the distances matter, so swapping the two booths never changes a pair's class. */
  lemma ClassifySymmetric(p: Booth, q: Booth)
    ensures Classify(p, q) == Classify(q, p)
  {
  }

  /** Back-to-back means: vertical offset strictly under 0.25 and horizontal distance strictly between 1.25 and 1.75. */
  lemma BackToBackGeometry(p: Booth, q: Booth)
    ensures Classify(p, q) == BackToBack
        <==> -0.25 < p.y - q.y < 0.25 && 1.25 < Abs(p.x - q.x) < 1.75
  {
  }

  /**
   * Same-column means: horizontal offset strictly under 0.25 and vertical
   * distance strictly between 0.5 and 1.0. The two bands cannot overlap, so the
   * `elif` ordering never decides a pair.
   */
  lemma SameColumnGeometry(p: Booth, q: Booth)
    ensures Classify(p, q) == SameColumn
        <==> -0.25 < p.x - q.x < 0.25 && 0.5 < Abs(p.y - q.y) < 1.0
    ensures !(BackToBackBand(Abs(p.x - q.x), Abs(p.y - q.y)) && SameColumnBand(Abs(p.x - q.x), Abs(p.y - q.y)))
  {
  }

  // ---------------------------------------------------------------------
  // Properties of the detected lists
  // ---------------------------------------------------------------------

  lemma {:induction false} RowMembership(booths: seq<Booth>, rel: Relation, i: nat, j: nat, p: Pair)
    requires i < j <= |booths|
    ensures p in Row(booths, rel, i, j)
        <==> exists k :: i < k < j && p == (booths[i].id, booths[k].id) && Classify(booths[i], booths[k]) == rel
    decreases j
  {
    if j > i + 1 {
      RowMembership(booths, rel, i, j - 1, p);
    }
  }

  lemma {:induction false} ScanMembership(booths: seq<Booth>, rel: Relation, i: nat, a: int, b: int)
    requires i <= |booths|
    ensures (a, b) in Scan(booths, rel, i)
        <==> exists r, k :: 0 <= r < i && r < k < |booths| && booths[r].id == a && booths[k].id == b
                            && Classify(booths[r], booths[k]) == rel
  {
    if (a, b) in Scan(booths, rel, i) {
      var r, k := ScanWitness(booths, rel, i, a, b);
    }
    if exists r, k :: 0 <= r < i && r < k < |booths| && booths[r].id == a && booths[k].id == b
                      && Classify(booths[r], booths[k]) == rel {
      var r, k :| 0 <= r < i && r < k < |booths| && booths[r].id == a && booths[k].id == b
                  && Classify(booths[r], booths[k]) == rel;
      ScanHas(booths, rel, i, r, k);
    }
  }

  /** The rows a listed pair comes from. */
  lemma {:induction false} ScanWitness(booths: seq<Booth>, rel: Relation, i: nat, a: int, b: int) returns (r: nat, k: nat)
    requires i <= |booths| && (a, b) in Scan(booths, rel, i)
    ensures r < i && r < k < |booths| && booths[r].id == a && booths[k].id == b && Classify(booths[r], booths[k]) == rel
  {
    var earlier, row := Scan(booths, rel, i - 1), Row(booths, rel, i - 1, |booths|);
    if (a, b) in earlier {
      r, k := ScanWitness(booths, rel, i - 1, a, b);
    } else {
      assert (a, b) in row;
      RowMembership(booths, rel, i - 1, |booths|, (a, b));
      r := i - 1;
      k :| i - 1 < k < |booths| && (a, b) == (booths[i - 1].id, booths[k].id) && Classify(booths[i - 1], booths[k]) == rel;
    }
  }

  /** Every pair of rows r < k with class `rel` and r below `i` is listed. */
  lemma {:induction false} ScanHas(booths: seq<Booth>, rel: Relation, i: nat, r: nat, k: nat)
    requires i <= |booths| && r < i && r < k < |booths| && Classify(booths[r], booths[k]) == rel
    ensures (booths[r].id, booths[k].id) in Scan(booths, rel, i)
  {
    if r < i - 1 {
      ScanHas(booths, rel, i - 1, r, k);
    } else {
      RowMembership(booths, rel, i - 1, |booths|, (booths[r].id, booths[k].id));
    }
  }

  /** A pair is listed exactly when two rows, the first before the second, hold its booths and have its class. */
  lemma DetectedMembership(booths: seq<Booth>, rel: Relation, a: int, b: int)
    ensures (a, b) in Detected(booths, rel) <==> RelatedAt(booths, rel, a, b)
  {
    ScanMembership(booths, rel, |booths|, a, b);
  }

  /** With unique booth numbers no pair is both back-to-back and same-column, and no pair is listed in both orientations. */
  lemma DetectedListsDisjoint(booths: seq<Booth>, a: int, b: int)
    requires DistinctIds(booths)
    ensures !((a, b) in Detected(booths, BackToBack) && (a, b) in Detected(booths, SameColumn))
    ensures forall r1, r2 :: !((a, b) in Detected(booths, r1) && (b, a) in Detected(booths, r2))
  {
    DetectedMembership(booths, BackToBack, a, b);
    DetectedMembership(booths, SameColumn, a, b);
    forall r1, r2 ensures !((a, b) in Detected(booths, r1) && (b, a) in Detected(booths, r2)) {
      DetectedMembership(booths, r1, a, b);
      DetectedMembership(booths, r2, b, a);
    }
  }

  lemma {:induction false} RowFacts(booths: seq<Booth>, rel: Relation, i: nat, j: nat)
    requires DistinctIds(booths) && i < j <= |booths|
    ensures NoDuplicates(Row(booths, rel, i, j))
    ensures forall p :: p in Row(booths, rel, i, j) ==> p.0 == booths[i].id
    ensures forall p :: p in Row(booths, rel, i, j) ==> exists k :: i < k < j && p.1 == booths[k].id
    decreases j
  {
    if j > i + 1 {
      RowFacts(booths, rel, i, j - 1);
      var prev := Row(booths, rel, i, j - 1);
      if Classify(booths[i], booths[j - 1]) == rel {
        var last := (booths[i].id, booths[j - 1].id);
        assert last !in prev;
        NoDuplicatesAppend(prev, [last]);
      }
    }
  }

  lemma {:induction false} ScanFacts(booths: seq<Booth>, rel: Relation, i: nat)
    requires DistinctIds(booths) && i <= |booths|
    ensures NoDuplicates(Scan(booths, rel, i))
    ensures forall p :: p in Scan(booths, rel, i) ==> exists r :: 0 <= r < i && p.0 == booths[r].id
  {
    if i > 0 {
      ScanFacts(booths, rel, i - 1);
      RowFacts(booths, rel, i - 1, |booths|);
      var prev := Scan(booths, rel, i - 1);
      var row := Row(booths, rel, i - 1, |booths|);
      forall p | p in prev ensures p !in row {
      }
      NoDuplicatesAppend(prev, row);
    }
  }

  /** Each pair is examined once, so with unique booth numbers no pair is listed twice. */
  lemma DetectedNoDuplicates(booths: seq<Booth>, rel: Relation)
    requires DistinctIds(booths)
    ensures NoDuplicates(Detected(booths, rel))
  {
    ScanFacts(booths, rel, |booths|);
  }

  lemma NoDuplicatesAppend<T>(s: seq<T>, t: seq<T>)
    requires NoDuplicates(s) && NoDuplicates(t)
    requires forall x :: x in s ==> x !in t
    ensures NoDuplicates(s + t)
  {
    forall i, j | 0 <= i < j < |s + t| ensures (s + t)[i] != (s + t)[j] {
      if j >= |s| && i < |s| {
        assert (s + t)[i] in s && (s + t)[j] in t;
      }
    }
  }

  // ---------------------------------------------------------------------
  // The weight map
  // ---------------------------------------------------------------------

  /** Python dict key order: each key where it was first inserted. */
  function InsertionOrder(s: seq<Pair>): (r: seq<Pair>)
    ensures NoDuplicates(r)
    ensures forall p :: p in r <==> p in s
  {
    if s == [] then []
    else
      var prev := InsertionOrder(s[..|s| - 1]);
      var last := s[|s| - 1];
      assert forall p :: p in s <==> p in s[..|s| - 1] || p == last;
      if last in prev then prev else prev + [last]
  }

  lemma {:induction false} InsertionOrderOfDistinct(s: seq<Pair>)
    requires NoDuplicates(s)
    ensures InsertionOrder(s) == s
  {
    if s != [] {
      InsertionOrderOfDistinct(s[..|s| - 1]);
      assert s[|s| - 1] !in s[..|s| - 1];
    }
  }

  /** The weight map the two loops leave behind: a same-column write replaces a back-to-back one. */
  function ConflictWeights(backToBack: seq<Pair>, sameColumn: seq<Pair>): map<Pair, real>
  {
    map p | p in (set q | q in backToBack) + (set q | q in sameColumn) :: if p in sameColumn then 1.0 else 3.0
  }

  /** A Python dict from pairs to weights: its keys in insertion order, and its entries. */
  datatype Dict = Dict(order: seq<Pair>, entries: map<Pair, real>)

  /** `d[k] = v`: a new key goes to the end of the order, an existing key keeps its place. */
  function Put(d: Dict, k: Pair, v: real): Dict
  {
    Dict(if k in d.entries then d.order else d.order + [k], d.entries[k := v])
  }

  /** The dict after `for e in items: d[e] = w`. */
  function PutAll(d: Dict, items: seq<Pair>, w: real): Dict
  {
    if items == [] then d
    else Put(PutAll(d, items[..|items| - 1], w), items[|items| - 1], w)
  }

  /**
   * Lines 111-116: back-to-back pairs get weight 3.0, then same-column pairs get
   * 1.0 (a later write replaces an earlier one); the conflict edges are the
   * dict's keys in insertion order.
   */
  method BuildWeights(backToBack: seq<Pair>, sameColumn: seq<Pair>)
    returns (weights: map<Pair, real>, conflictEdges: seq<Pair>)
    ensures weights.Keys == (set p | p in backToBack) + (set p | p in sameColumn)
    ensures forall p :: p in sameColumn ==> weights[p] == 1.0
    ensures forall p :: p in backToBack && p !in sameColumn ==> weights[p] == 3.0
    ensures conflictEdges == InsertionOrder(backToBack + sameColumn)
  {
    var empty := Dict([], map[]);
    var afterFirst := WeighAll(empty, backToBack, 3.0);
    var d := WeighAll(afterFirst, sameColumn, 1.0);
    weights, conflictEdges := d.entries, d.order;

    PutAllEntries(empty, backToBack, 3.0);
    PutAllEntries(afterFirst, sameColumn, 1.0);
    assert [] + backToBack == backToBack;
    PutAllOrder(empty, [], backToBack, 3.0);
    PutAllOrder(afterFirst, backToBack, sameColumn, 1.0);
  }

  /** One loop `for e in items: weights[e] = w`. */
  method WeighAll(d: Dict, items: seq<Pair>, w: real) returns (d': Dict)
    ensures d' == PutAll(d, items, w)
  {
    d' := d;
    var k := 0;
    while k < |items|
      invariant 0 <= k <= |items|
      invariant d' == PutAll(d, items[..k], w)
    {
      assert items[..k + 1][..k] == items[..k];
      d' := Put(d', items[k], w);
      k := k + 1;
    }
    assert items[..k] == items;
  }

  /** Every item gets weight `w`; every other key keeps its weight. */
  lemma {:induction false} PutAllEntries(d: Dict, items: seq<Pair>, w: real)
    ensures forall p :: p in PutAll(d, items, w).entries <==> p in d.entries || p in items
    ensures forall p :: p in PutAll(d, items, w).entries ==>
              PutAll(d, items, w).entries[p] == if p in items then w else d.entries[p]
  {
    if items != [] {
      var q := items[..|items| - 1];
      PutAllEntries(d, q, w);
      assert items == q + [items[|items| - 1]];
    }
  }

  /** The key order stays the insertion order of everything written so far. */
  lemma {:induction false} PutAllOrder(d: Dict, prior: seq<Pair>, items: seq<Pair>, w: real)
    requires forall p :: p in d.entries <==> p in prior
    requires d.order == InsertionOrder(prior)
    ensures PutAll(d, items, w).order == InsertionOrder(prior + items)
  {
    if items == [] {
      assert prior + items == prior;
    } else {
      var q := items[..|items| - 1];
      var e := items[|items| - 1];
      var before := PutAll(d, q, w);
      PutAllOrder(d, prior, q, w);
      assert e in before.entries <==> e in prior + q by {
        PutAllEntries(d, q, w);
      }
      assert prior + items == (prior + q) + [e];
      InsertionOrderSnoc(prior + q, e);
      assert PutAll(d, items, w).order == if e in before.entries then before.order else before.order + [e];
    }
  }

  lemma InsertionOrderSnoc(s: seq<Pair>, e: Pair)
    ensures InsertionOrder(s + [e]) == if e in s then InsertionOrder(s) else InsertionOrder(s) + [e]
  {
    assert (s + [e])[..|s|] == s;
  }

  /** Keys and values as the two loops leave them determine the map. */
  lemma ConflictWeightsUnique(weights: map<Pair, real>, backToBack: seq<Pair>, sameColumn: seq<Pair>)
    requires weights.Keys == (set p | p in backToBack) + (set p | p in sameColumn)
    requires forall p :: p in sameColumn ==> weights[p] == 1.0
    requires forall p :: p in backToBack && p !in sameColumn ==> weights[p] == 3.0
    ensures weights == ConflictWeights(backToBack, sameColumn)
  {
    var w := ConflictWeights(backToBack, sameColumn);
    assert weights.Keys == w.Keys;
    forall p | p in w ensures weights[p] == w[p] {
    }
  }

  /**
   * On the detector's own output the two lists never share a pair, so no weight
   * is ever overwritten: the conflict edges are the back-to-back pairs followed
   * by the same-column pairs, and each edge's weight is 3.0 or 1.0 by its class.
   */
  lemma DetectedEdges(booths: seq<Booth>)
    requires DistinctIds(booths)
    ensures InsertionOrder(Detected(booths, BackToBack) + Detected(booths, SameColumn))
         == Detected(booths, BackToBack) + Detected(booths, SameColumn)
  {
    var b2b, sc := Detected(booths, BackToBack), Detected(booths, SameColumn);
    DetectedNoDuplicates(booths, BackToBack);
    DetectedNoDuplicates(booths, SameColumn);
    forall p | p in b2b ensures p !in sc {
      DetectedListsDisjoint(booths, p.0, p.1);
    }
    NoDuplicatesAppend(b2b, sc);
    InsertionOrderOfDistinct(b2b + sc);
  }
}
