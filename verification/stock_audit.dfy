/** The stock-take audit: a sparse working set of physical counts, the variance
    of each listed material whose count differs from recorded stock, and the
    audit payload that sends every touched count. */
module StockAudit {
  import opened Wrappers
  import opened Parsing
  import opened Entities

  /** Material id to counted quantity; only materials the user touched are present. */
  type Counts = map<int, real>

  /** One reconciliation line: the counted minus the recorded stock, and what that
      difference is worth at the material's unit cost. */
  datatype Variance = Variance(id: int, diff: real, cost: real)

  /** Typing into a material's "Physical Count" cell. Text that does not parse is
      ignored, as a keystroke that leaves the previous count in place. */
  function EditCount(counts: Counts, id: int, text: string): (r: Counts)
    ensures ParseFloat(text).None? ==> r == counts
    ensures ParseFloat(text).Some? ==> r.Keys == counts.Keys + {id} && r[id] == ParseFloat(text).value
    ensures forall k :: k in counts && k != id ==> k in r && r[k] == counts[k]
  {
    match ParseFloat(text)
    case None => counts
    case Some(v) => counts[id := v]
  }

  /** The material was counted, and the count is not its recorded stock. */
  predicate IsChanged(m: Material, counts: Counts) {
    m.id in counts && counts[m.id] != m.currentStock
  }

  function VarianceOf(m: Material, counted: real): Variance {
    var diff := counted - m.currentStock;
    Variance(m.id, diff, diff * m.costPerUnit)
  }

  /** The variance list, in material-list order. */
  function Variances(ms: seq<Material>, counts: Counts): (r: seq<Variance>)
    ensures |r| <= |ms|
    ensures forall m :: m in ms && IsChanged(m, counts) ==> VarianceOf(m, counts[m.id]) in r
    ensures forall v :: v in r ==> exists m :: m in ms && IsChanged(m, counts) && v == VarianceOf(m, counts[m.id])
  {
    if |ms| == 0 then []
    else
      var rest := Variances(ms[1..], counts);
      assert forall m :: m in ms <==> m == ms[0] || m in ms[1..];
      if IsChanged(ms[0], counts) then [VarianceOf(ms[0], counts[ms[0].id])] + rest else rest
  }

  /** Each variance line is its material's counted minus recorded stock, costed at
      the material's unit cost. */
  lemma VarianceArithmetic(ms: seq<Material>, counts: Counts, v: Variance)
    requires v in Variances(ms, counts)
    ensures exists m :: (m in ms && m.id == v.id && m.id in counts
      && counts[m.id] != m.currentStock
      && v.diff == counts[m.id] - m.currentStock && v.cost == v.diff * m.costPerUnit)
  {
  }

  /** The list follows material order: it distributes over concatenation. */
  lemma {:induction false} VariancesAppend(a: seq<Material>, b: seq<Material>, counts: Counts)
    ensures Variances(a + b, counts) == Variances(a, counts) + Variances(b, counts)
  {
    if |a| == 0 {
      assert a + b == b;
    } else {
      assert (a + b)[1..] == a[1..] + b;
      VariancesAppend(a[1..], b, counts);
    }
  }

  /** Whether "Apply Adjustments" is enabled. */
  function HasChanges(ms: seq<Material>, counts: Counts): (b: bool)
    ensures b <==> exists m :: m in ms && IsChanged(m, counts)
  {
    var r := Variances(ms, counts);
    assert |r| > 0 ==> r[0] in r;
    |r| > 0
  }

  /** One more material extends the list by its own line, if it has one. */
  lemma VariancesStep(ms: seq<Material>, i: nat, counts: Counts)
    requires i < |ms|
    ensures Variances(ms[..i + 1], counts) == Variances(ms[..i], counts) +
      (if IsChanged(ms[i], counts) then [VarianceOf(ms[i], counts[ms[i].id])] else [])
  {
    assert ms[..i + 1] == ms[..i] + [ms[i]];
    VariancesAppend(ms[..i], [ms[i]], counts);
    assert [ms[i]][1..] == [];
  }

  /** The memoised statistics as the screen computes them: one pass over the
      materials, counting changes and pushing variance lines. */
  method ComputeStats(ms: seq<Material>, counts: Counts) returns (variances: seq<Variance>, changeCount: nat, hasChanges: bool)
    ensures variances == Variances(ms, counts)
    ensures changeCount == |variances|
    ensures hasChanges <==> exists m :: m in ms && IsChanged(m, counts)
  {
    variances := [];
    changeCount := 0;
    var i := 0;
    while i < |ms|
      invariant 0 <= i <= |ms|
      invariant variances == Variances(ms[..i], counts)
      invariant changeCount == |variances|
    {
      var m := ms[i];
      VariancesStep(ms, i, counts);
      if m.id in counts && counts[m.id] != m.currentStock {
        changeCount := changeCount + 1;
        variances := variances + [VarianceOf(m, counts[m.id])];
      }
      i := i + 1;
    }
    assert ms[..i] == ms;
    hasChanges := changeCount > 0;
    assert hasChanges == HasChanges(ms, counts);
  }

  /** The "Total Variance" figure: the sum of the variance costs. */
  function TotalVariance(vs: seq<Variance>): real {
    if |vs| == 0 then 0.0 else vs[0].cost + TotalVariance(vs[1..])
  }

  lemma {:induction false} TotalVarianceAppend(a: seq<Variance>, b: seq<Variance>)
    ensures TotalVariance(a + b) == TotalVariance(a) + TotalVariance(b)
  {
    if |a| == 0 {
      assert a + b == b;
    } else {
      assert (a + b)[1..] == a[1..] + b;
      TotalVarianceAppend(a[1..], b);
    }
  }

  /** Counts that all agree with recorded stock produce no variance at all, even
      though they stay in the working set. */
  lemma {:induction false} MatchingCountsNoVariance(ms: seq<Material>, counts: Counts)
    requires forall m :: m in ms && m.id in counts ==> counts[m.id] == m.currentStock
    ensures Variances(ms, counts) == []
    ensures TotalVariance(Variances(ms, counts)) == 0.0
    ensures !HasChanges(ms, counts)
  {
    if |ms| > 0 {
      assert !IsChanged(ms[0], counts);
      MatchingCountsNoVariance(ms[1..], counts);
    }
  }

  /** The stock the service records once it has applied the counts: every counted
      material's stock becomes its count. */
  function ApplyCounts(ms: seq<Material>, counts: Counts): (r: seq<Material>)
    ensures |r| == |ms|
    ensures forall i :: 0 <= i < |ms| ==> r[i].id == ms[i].id && r[i].costPerUnit == ms[i].costPerUnit
    ensures forall i :: 0 <= i < |ms| && ms[i].id in counts ==> r[i].currentStock == counts[ms[i].id]
    ensures forall i :: 0 <= i < |ms| && ms[i].id !in counts ==> r[i] == ms[i]
  {
    seq(|ms|, i requires 0 <= i < |ms| =>
      if ms[i].id in counts then ms[i].(currentStock := counts[ms[i].id]) else ms[i])
  }

  /** Reconciliation: once the counts are applied, auditing the same counts
      against the new stock shows no variance. */
  lemma AppliedCountsReconcile(ms: seq<Material>, counts: Counts)
    ensures Variances(ApplyCounts(ms, counts), counts) == []
  {
    var applied := ApplyCounts(ms, counts);
    forall m | m in applied && m.id in counts
      ensures counts[m.id] == m.currentStock
    {
      var i :| 0 <= i < |applied| && applied[i] == m;
    }
    MatchingCountsNoVariance(applied, counts);
  }

  /** The audit payload: one item per touched material, including counts equal
      to stock and ids not in the material list, in ascending id order (the order
      in which integer keys of a JavaScript object are enumerated). */
  predicate IsAuditPayload(items: seq<AuditItem>, counts: Counts) {
    && |items| == |counts|
    && (forall i :: 0 <= i < |items| ==>
          items[i].materialId in counts && items[i].countedQuantity == counts[items[i].materialId])
    && (forall k :: k in counts ==> exists i :: 0 <= i < |items| && items[i].materialId == k)
    && (forall i, j :: 0 <= i < j < |items| ==> items[i].materialId < items[j].materialId)
  }

  lemma NonEmptyHasMember(s: set<int>)
    requires s != {}
    ensures exists x :: x in s
  {
    if forall x :: x !in s {
      assert false;
    }
  }

  /** A finite non-empty set of ids has a smallest one. */
  lemma Smallest(s: set<int>) returns (k: int)
    requires s != {}
    ensures k in s && forall j :: j in s ==> k <= j
  {
    NonEmptyHasMember(s);
    var x :| x in s;
    if s == {x} {
      k := x;
      assert forall j :: j in s ==> j == x;
    } else {
      var m := Smallest(s - {x});
      k := if x < m then x else m;
      forall j | j in s
        ensures k <= j
      {
        if j != x {
          assert j in s - {x};
        }
      }
    }
  }

  lemma SmallestExists(s: set<int>)
    requires s != {}
    ensures exists k :: k in s && forall j :: j in s ==> k <= j
  {
    var k := Smallest(s);
  }

  /** Every item taken so far carries its id's count, and that id is no longer
      waiting to be taken. */
  predicate Taken(items: seq<AuditItem>, rest: set<int>, counts: Counts) {
    && rest <= counts.Keys
    && |items| + |rest| == |counts|
    && forall i :: 0 <= i < |items| ==>
         items[i].materialId in counts && items[i].materialId !in rest
         && items[i].countedQuantity == counts[items[i].materialId]
  }

  /** Every counted id is either taken or still waiting. */
  predicate Covered(items: seq<AuditItem>, rest: set<int>, counts: Counts) {
    forall k :: k in counts && k !in rest ==> exists i :: 0 <= i < |items| && items[i].materialId == k
  }

  predicate Ascending(items: seq<AuditItem>) {
    forall i, j :: 0 <= i < j < |items| ==> items[i].materialId < items[j].materialId
  }

  /** Every id taken is below every id still waiting. */
  predicate BelowRest(items: seq<AuditItem>, rest: set<int>) {
    forall i, k :: 0 <= i < |items| && k in rest ==> items[i].materialId < k
  }

  /** The payload built so far: the ids already taken, in ascending order, each
      below every id still to take. */
  predicate PayloadSoFar(items: seq<AuditItem>, rest: set<int>, counts: Counts) {
    Taken(items, rest, counts) && Covered(items, rest, counts) && Ascending(items) && BelowRest(items, rest)
  }

  lemma TakenStep(items: seq<AuditItem>, rest: set<int>, counts: Counts, k: int)
    requires Taken(items, rest, counts) && k in rest
    ensures Taken(items + [AuditItem(k, counts[k])], rest - {k}, counts)
  {
    var next := items + [AuditItem(k, counts[k])];
    assert |rest - {k}| == |rest| - 1;
    forall i | 0 <= i < |next|
      ensures next[i].materialId in counts && next[i].materialId !in rest - {k}
      ensures next[i].countedQuantity == counts[next[i].materialId]
    {
      if i < |items| {
        assert next[i] == items[i];
      }
    }
  }

  lemma CoveredStep(items: seq<AuditItem>, rest: set<int>, counts: Counts, k: int)
    requires Covered(items, rest, counts) && k in rest && k in counts
    ensures Covered(items + [AuditItem(k, counts[k])], rest - {k}, counts)
  {
    var next := items + [AuditItem(k, counts[k])];
    forall m | m in counts && m !in rest - {k}
      ensures exists i :: 0 <= i < |next| && next[i].materialId == m
    {
      if m == k {
        assert next[|items|].materialId == m;
      } else {
        var i :| 0 <= i < |items| && items[i].materialId == m;
        assert next[i].materialId == m;
      }
    }
  }

  lemma AscendingStep(items: seq<AuditItem>, rest: set<int>, k: int, q: real)
    requires Ascending(items) && BelowRest(items, rest) && k in rest
    ensures Ascending(items + [AuditItem(k, q)])
  {
    var next := items + [AuditItem(k, q)];
    forall i, j | 0 <= i < j < |next|
      ensures next[i].materialId < next[j].materialId
    {
      assert next[i] == items[i];
      if j < |items| {
        assert next[j] == items[j];
      }
    }
  }

  lemma BelowRestStep(items: seq<AuditItem>, rest: set<int>, k: int, q: real)
    requires BelowRest(items, rest) && k in rest && forall j :: j in rest ==> k <= j
    ensures BelowRest(items + [AuditItem(k, q)], rest - {k})
  {
    var next := items + [AuditItem(k, q)];
    forall i, m | 0 <= i < |next| && m in rest - {k}
      ensures next[i].materialId < m
    {
      if i < |items| {
        assert next[i] == items[i];
      }
    }
  }

  /** Taking the least remaining id keeps the payload ordered and complete. */
  lemma PayloadStep(items: seq<AuditItem>, rest: set<int>, counts: Counts, k: int)
    requires PayloadSoFar(items, rest, counts)
    requires k in rest && forall j :: j in rest ==> k <= j
    ensures PayloadSoFar(items + [AuditItem(k, counts[k])], rest - {k}, counts)
  {
    TakenStep(items, rest, counts, k);
    CoveredStep(items, rest, counts, k);
    AscendingStep(items, rest, k, counts[k]);
    BelowRestStep(items, rest, k, counts[k]);
  }

  /** `Object.entries(counts).map(...)`. */
  method AuditPayload(counts: Counts) returns (items: seq<AuditItem>)
    ensures IsAuditPayload(items, counts)
  {
    items := [];
    var rest := counts.Keys;
    while rest != {}
      invariant PayloadSoFar(items, rest, counts)
      decreases |rest|
    {
      SmallestExists(rest);
      var k :| k in rest && forall j :: j in rest ==> k <= j;
      PayloadStep(items, rest, counts, k);
      items := items + [AuditItem(k, counts[k])];
      rest := rest - {k};
    }
  }

  /** What a save sent, if anything, and the working set once the submit settled. */
  datatype SaveStep = SaveStep(request: Option<seq<AuditItem>>, counts: Counts)

  /** "Apply Adjustments": nothing is sent while no listed material differs from
      its stock. Otherwise every touched count in `counts` is sent; `later` is the
      working set when the submit settles, after any counts typed meanwhile. A
      successful submit empties it and a failed one leaves it as it was. */
  method Save(ms: seq<Material>, counts: Counts, later: Counts, outcome: SubmitOutcome) returns (step: SaveStep)
    ensures !HasChanges(ms, counts) ==> step == SaveStep(None, counts)
    ensures HasChanges(ms, counts) ==> step.request.Some? && IsAuditPayload(step.request.value, counts)
    ensures HasChanges(ms, counts) && outcome == Succeeded ==> step.counts == map[]
    ensures HasChanges(ms, counts) && outcome == Failed ==> step.counts == later
  {
    if !HasChanges(ms, counts) {
      return SaveStep(None, counts);
    }
    var items := AuditPayload(counts);
    match outcome
    case Succeeded => step := SaveStep(Some(items), map[]);
    case Failed => step := SaveStep(Some(items), later);
  }

  /** A count typed for a new material while a save is in flight is not in the
      payload, and a successful save then clears it: it is never sent. */
  lemma CountTypedInFlightLost(counts: Counts, items: seq<AuditItem>, id: int, text: string)
    requires IsAuditPayload(items, counts)
    requires id !in counts && ParseFloat(text).Some?
    ensures id in EditCount(counts, id, text)
    ensures forall i :: 0 <= i < |items| ==> items[i].materialId != id
  {
  }

  /** After a successful save the audit starts over with nothing to apply. */
  lemma ClearedCountsHaveNoChanges(ms: seq<Material>)
    ensures Variances(ms, map[]) == []
    ensures !HasChanges(ms, map[])
  {
    MatchingCountsNoVariance(ms, map[]);
  }
}
