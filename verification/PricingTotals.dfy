/** The total of a construction estimate, as a function of the mappings that are asked for: their order, cutting the
    list in two, and the distance from the exact sum. */
module PricingTotals {
  import C = Construction
  import opened Money
  import opened PricingAuthority
  import opened Wrappers

  predicate Admitted(role: string, ids: seq<nat>, scenarioOk: bool, factor: int) {
    IsOwner(role) && scenarioOk && 0 < factor <= 50_000 && ids != []
  }

  predicate Priceable(db: Db, tenant: string, project: string, id: nat) {
    Mine(db, tenant, project, id) && LineOf(db, tenant, id).Ok?
  }

  /** The quantity of the mapping times the price of its item, as the two rows have them; 0 without a price. */
  function Exact(db: Db, id: nat): C.Amount {
    if id in db.mappings && db.mappings[id].item in db.items && db.items[db.mappings[id].item].cents.Some?
    then (db.mappings[id].quantity * db.items[db.mappings[id].item].cents.value) as real / 1_000_000.0
    else 0.0
  }

  function Exacts(db: Db, ids: seq<nat>): (amounts: seq<C.Amount>)
    ensures |amounts| == |ids| && forall k | 0 <= k < |ids| :: amounts[k] == Exact(db, ids[k])
  {
    seq(|ids|, k requires 0 <= k < |ids| => Exact(db, ids[k]))
  }

  lemma {:induction false} LinesAreExact(db: Db, tenant: string, ids: seq<nat>)
    requires forall id | id in ids :: id in db.mappings
    ensures var lines := LinesOf(db, tenant, ids);
      && (lines.Ok? <==> forall id | id in ids :: LineOf(db, tenant, id).Ok?)
      && (lines.Ok? ==>
            |lines.value| == |ids| && forall k | 0 <= k < |ids| :: AmountOfLine(lines.value[k]) == Exact(db, ids[k]))
    decreases |ids|
  {
    if ids != [] {
      var n := |ids| - 1;
      assert ids == ids[..n] + [ids[n]];
      LinesAreExact(db, tenant, ids[..n]);
      if LineOf(db, tenant, ids[n]).Ok? {
        LineIsExact(db, tenant, ids[n]);
      }
      assert forall id :: id in ids <==> id in ids[..n] || id == ids[n];
    }
  }

  lemma LineIsExact(db: Db, tenant: string, id: nat)
    requires id in db.mappings && LineOf(db, tenant, id).Ok?
    ensures AmountOfLine(LineOf(db, tenant, id).value) == Exact(db, id)
  {
  }

  /** An estimate is made exactly if the request is admitted and every mapping can be priced; its total is then that
      of the quantities and prices in the rows. */
  lemma {:induction false} EstimateIsExact(db: Db, tenant: string, project: string, role: string, ids: seq<nat>,
                                           scenarioOk: bool, factor: int)
    ensures var e := EstimateOf(db, tenant, project, role, ids, scenarioOk, factor);
      && (e.Ok? <==> Admitted(role, ids, scenarioOk, factor) && forall id | id in ids :: Priceable(db, tenant, project, id))
      && (e.Ok? ==> e.value.total == C.Total(Exacts(db, ids), factor))
  {
    if Admitted(role, ids, scenarioOk, factor) && forall id | id in ids :: Mine(db, tenant, project, id) {
      LinesAreExact(db, tenant, ids);
      var lines := LinesOf(db, tenant, ids);
      assert lines.Ok? ==> Amounts(lines.value) == Exacts(db, ids);
    }
  }

  // ----- order

  lemma ExactsWithout(db: Db, ids: seq<nat>, i: nat)
    requires i < |ids|
    ensures multiset(Exacts(db, ids)) == multiset(Exacts(db, C.Without(ids, i))) + multiset{Exact(db, ids[i])}
  {
    C.MultisetWithout(Exacts(db, ids), i);
    assert C.Without(Exacts(db, ids), i) == Exacts(db, C.Without(ids, i));
  }

  lemma {:induction false} ExactsPermute(db: Db, a: seq<nat>, b: seq<nat>)
    requires multiset(a) == multiset(b)
    ensures multiset(Exacts(db, a)) == multiset(Exacts(db, b))
    decreases |a|
  {
    if a == [] {
      assert |multiset(b)| == 0;
    } else {
      assert a[0] in multiset(b);
      var i :| 0 <= i < |b| && b[i] == a[0];
      assert C.Without(a, 0) == a[1..];
      C.MultisetWithout(a, 0);
      C.MultisetWithout(b, i);
      ExactsPermute(db, C.Without(a, 0), C.Without(b, i));
      ExactsWithout(db, a, 0);
      ExactsWithout(db, b, i);
    }
  }

  /** Two lists with the same mappings, in any order, both give an estimate or neither, and the totals are equal. */
  lemma {:induction false} OrderDoesNotMatter(db: Db, tenant: string, project: string, role: string, a: seq<nat>,
                                              b: seq<nat>, scenarioOk: bool, factor: int)
    requires multiset(a) == multiset(b)
    ensures var x := EstimateOf(db, tenant, project, role, a, scenarioOk, factor);
      var y := EstimateOf(db, tenant, project, role, b, scenarioOk, factor);
      (x.Ok? <==> y.Ok?) && (x.Ok? ==> x.value.total == y.value.total)
  {
    assert forall id :: id in a <==> id in multiset(a);
    assert forall id :: id in b <==> id in multiset(b);
    assert |a| == |multiset(a)| && |b| == |multiset(b)|;
    EstimateIsExact(db, tenant, project, role, a, scenarioOk, factor);
    EstimateIsExact(db, tenant, project, role, b, scenarioOk, factor);
    if 0 < factor {
      ExactsPermute(db, a, b);
      C.TotalOfPermutation(Exacts(db, a), Exacts(db, b), factor);
    }
  }

  // ----- parts

  /** A list cut in two gives an estimate exactly if both parts do, and the totals differ by at most one cent. */
  lemma {:induction false} PartsByACent(db: Db, tenant: string, project: string, role: string, a: seq<nat>, b: seq<nat>,
                                        scenarioOk: bool, factor: int)
    requires a != [] && b != []
    ensures var x := EstimateOf(db, tenant, project, role, a, scenarioOk, factor);
      var y := EstimateOf(db, tenant, project, role, b, scenarioOk, factor);
      var whole := EstimateOf(db, tenant, project, role, a + b, scenarioOk, factor);
      (whole.Ok? <==> x.Ok? && y.Ok?) && (whole.Ok? ==> -1 <= whole.value.total - (x.value.total + y.value.total) <= 1)
  {
    assert forall id :: id in a + b <==> id in a || id in b;
    EstimateIsExact(db, tenant, project, role, a, scenarioOk, factor);
    EstimateIsExact(db, tenant, project, role, b, scenarioOk, factor);
    EstimateIsExact(db, tenant, project, role, a + b, scenarioOk, factor);
    if 0 < factor {
      assert Exacts(db, a + b) == Exacts(db, a) + Exacts(db, b);
      C.SplitByACent(Exacts(db, a), Exacts(db, b), factor);
    }
  }

  // ----- distance

  /** The sum of quantity times price over the mappings, in cents, each as often as it is asked for. */
  function ExactSum(db: Db, ids: seq<nat>): real {
    if ids == [] then 0.0 else Exact(db, ids[0]) + ExactSum(db, ids[1..])
  }

  lemma {:induction false} SumOfExacts(db: Db, ids: seq<nat>)
    ensures C.Sum(Exacts(db, ids)) == ExactSum(db, ids)
  {
    if ids != [] {
      SumOfExacts(db, ids[1..]);
      assert Exacts(db, ids)[1..] == Exacts(db, ids[1..]);
    }
  }

  lemma {:induction false} TotalOfExacts(db: Db, ids: seq<nat>, factor: nat)
    ensures Within(C.Total(Exacts(db, ids), factor) as real, ExactSum(db, ids) * (factor as real / 10_000.0),
                   (|ids| * factor) as real / 20_000.0 + 0.5)
  {
    SumOfExacts(db, ids);
    C.TotalIsNear(Exacts(db, ids), factor);
  }

  /** The total of n mappings is within n * factor / 20000 + 1/2 cents of the exact sum times the factor. */
  lemma {:induction false} EstimateIsNear(db: Db, tenant: string, project: string, role: string, ids: seq<nat>,
                                          scenarioOk: bool, factor: int)
    requires EstimateOf(db, tenant, project, role, ids, scenarioOk, factor).Ok?
    ensures var total := EstimateOf(db, tenant, project, role, ids, scenarioOk, factor).value.total;
      && 0 < factor
      && Within(total as real, ExactSum(db, ids) * (factor as real / 10_000.0), (|ids| * factor) as real / 20_000.0 + 0.5)
  {
    EstimateIsExact(db, tenant, project, role, ids, scenarioOk, factor);
    TotalOfExacts(db, ids, factor);
  }
}
