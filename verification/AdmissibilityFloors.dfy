/** Exactly which declared class floors can only make admission harder. */
module AdmissibilityFloors {
  import opened Seqs
  import opened Sums
  import opened Admissibility
  import opened AdmissibilityLaws

  /** On every measured round, what the declared floors admit the project floor alone admits. */
  ghost predicate OnlyTighten(floor: real, declared: map<string, real>) {
    forall r, f :: ValidRound(r) && Measures(r, f) ==> (Admitted(f, floor, declared) ==> Admitted(f, floor, map[]))
  }

  /** No class can have the empty name. */
  predicate NoneBelow(floor: real, declared: map<string, real>) {
    forall c :: c in declared && c != "" ==> declared[c] >= floor
  }

  // ---------- when they tighten ----------

  lemma ClassesAreNamed(r: Round, f: Figures, c: string)
    requires Measures(r, f) && c in f.byClass
    ensures c != ""
  {
    hide FailuresOf, PoolOf;
    assert f.byClass[c] == BucketOf(r, r.candidates.Keys, c);
    assert InClass(r.candidates.Keys, ClassOf(r), "") == {};
  }

  lemma {:induction false} TotalLeq(a: map<string, nat>, b: map<string, nat>)
    requires a.Keys == b.Keys && forall c :: c in a ==> a[c] <= b[c]
    ensures Total(a) <= Total(b)
    decreases a.Keys
  {
    if a == map[] {
      assert b == map[];
    } else {
      var c :| c in a;
      assert (a - {c}).Keys == a.Keys - {c} && (b - {c}).Keys == b.Keys - {c};
      TotalLeq(a - {c}, b - {c});
      TotalWithout(a, c);
      TotalWithout(b, c);
    }
  }

  lemma FullTotalsMeanFull(a: map<string, nat>, b: map<string, nat>, c: string)
    requires a.Keys == b.Keys && (forall d :: d in a ==> a[d] <= b[d]) && Total(a) == Total(b) && c in a
    ensures a[c] == b[c]
  {
    hide Total;
    TotalWithout(a, c);
    TotalWithout(b, c);
    TotalLeq(a - {c}, b - {c});
  }

  lemma ClassWithin(part: set<string>, all: set<string>, of: map<string, string>, c: string)
    ensures |InClass(part * all, of, c)| <= |InClass(all, of, c)|
  {
    SubsetIsSmaller(InClass(part * all, of, c), InClass(all, of, c));
  }

  lemma BucketsWithin(r: Round, f: Figures, c: string)
    requires ValidRound(r) && Measures(r, f) && c in f.byClass
    ensures Weighed(f.started, f.byClass)[c] <= Found(f.byClass)[c]
  {
    hide FailuresOf, PoolOf, InClass;
    assert f.byClass[c] == BucketOf(r, r.candidates.Keys, c);
    ClassWithin(ObtainedSet(r), r.candidates.Keys, ClassOf(r), c);
    ClassWithin(ConfirmedSet(r), r.candidates.Keys, ClassOf(r), c);
  }

  lemma ShareRange(n: nat, of: nat)
    requires 0 < of && n <= of
    ensures 0.0 <= Share(n, of) <= 1.0 && (Share(n, of) == 1.0 <==> n == of)
  {
    ShareBounds(0, n, of);
    ShareTimes(n, of);
  }

  lemma WeighedIsFull(r: Round, f: Figures)
    requires ValidRound(r) && Measures(r, f) && f.found > 0 && RateOf(f).value >= 1.0
    ensures Total(Weighed(f.started, f.byClass)) == Total(Found(f.byClass))
    ensures forall d :: d in f.byClass ==> Weighed(f.started, f.byClass)[d] <= Found(f.byClass)[d]
  {
    hide PoolOf, FailuresOf, ClassifiedSet, Total, BucketOf, Share;
    WeighedTotal(r, f);
    forall d | d in f.byClass ensures Weighed(f.started, f.byClass)[d] <= Found(f.byClass)[d] {
      BucketsWithin(r, f, d);
    }
    TotalLeq(Weighed(f.started, f.byClass), Found(f.byClass));
    ShareRange(Lower(f.started, f.pool.obtained, f.pool.confirmed), f.found);
  }

  lemma FullRoundIsFullByClass(r: Round, f: Figures, c: string)
    requires ValidRound(r) && Measures(r, f) && f.found > 0 && RateOf(f).value >= 1.0 && c in f.byClass
    ensures ClassRate(f.started, f.byClass[c]) == 1.0
  {
    hide PoolOf, FailuresOf, ClassifiedSet, Total, BucketOf, Share;
    WeighedIsFull(r, f);
    FullTotalsMeanFull(Weighed(f.started, f.byClass), Found(f.byClass), c);
    ShareRange(Weighed(f.started, f.byClass)[c], f.byClass[c].found);
  }

  lemma Tighten(floor: real, declared: map<string, real>, r: Round, f: Figures)
    requires floor <= 0.0 || floor >= 1.0 || NoneBelow(floor, declared)
    requires ValidRound(r) && Measures(r, f) && Admitted(f, floor, declared)
    ensures Admitted(f, floor, map[])
  {
    hide PoolOf, FailuresOf, ClassifiedSet, BucketOf, Share;
    if floor <= 0.0 || floor >= 1.0 {
      forall c | c in f.byClass ensures ClassRate(f.started, f.byClass[c]) >= floor {
        if floor <= 0.0 {
          BucketsWithin(r, f, c);
          ShareRange(Weighed(f.started, f.byClass)[c], f.byClass[c].found);
        } else {
          FullRoundIsFullByClass(r, f, c);
          RateIsBounded(r, f);
        }
      }
    } else {
      var named := declared - {""};
      forall c | c in f.byClass ensures FloorOf(floor, named, c) == FloorOf(floor, declared, c) {
        ClassesAreNamed(r, f, c);
      }
      FloorsOnlyTighten(f, floor, map[], named);
    }
  }

  // ---------- a round that shows when they do not ----------

  function Name(i: nat): string { seq(i, _ => 'x') }

  lemma NamesDiffer(i: nat, j: nat)
    ensures Name(i) == Name(j) <==> i == j
  {
    assert |Name(i)| == i && |Name(j)| == j;
  }

  function Names(lo: nat, hi: nat): set<string>
    requires lo <= hi
  {
    set i | lo <= i < hi :: Name(i)
  }

  lemma {:induction false} NamesCounted(lo: nat, hi: nat)
    requires lo <= hi
    ensures |Names(lo, hi)| == hi - lo
    decreases hi
  {
    if lo == hi {
      assert Names(lo, hi) == {};
    } else {
      NamesCounted(lo, hi - 1);
      forall i | lo <= i < hi - 1 ensures Name(i) != Name(hi - 1) { NamesDiffer(i, hi - 1); }
      assert Names(lo, hi) == Names(lo, hi - 1) + {Name(hi - 1)};
    }
  }

  lemma {:induction false} FreshName(taken: set<string>) returns (name: string)
    ensures name !in taken && name != ""
  {
    var n := LongerThanAll(taken);
    name := Name(n + 1);
    assert |name| == n + 1;
  }

  lemma {:induction false} LongerThanAll(taken: set<string>) returns (n: nat)
    ensures forall x :: x in taken ==> |x| <= n
  {
    n := 0;
    if taken != {} {
      var x :| x in taken;
      n := LongerThanAll(taken - {x});
      n := if |x| > n then |x| else n;
    }
  }

  /** A round of `m` candidates of class `low`, `n` of them obtained, and `more` of class `high`, all
      obtained; nothing was judged yet. */
  function MixedRound(low: string, high: string, n: nat, m: nat, more: nat): Round
    requires n <= m
  {
    Round(map k | k in Names(0, m + more) :: Candidate(Some(k), "", "", if |k| < m then low else high),
          map k | k in Names(0, n) + Names(m, m + more) :: Acquisition(Some(k), true, false, "", "", "", ""),
          map[])
  }

  lemma InNames(k: string, lo: nat, hi: nat)
    requires lo <= hi && hi > 0 && k in Names(0, hi)
    ensures k in Names(lo, hi) <==> lo <= |k|
    ensures |k| < hi && k == Name(|k|)
  {
    var i :| 0 <= i < hi && k == Name(i);
    assert |k| == i;
  }

  lemma BucketsExist(r: Round) returns (byClass: map<string, Bucket>)
    ensures BucketsOf(r, r.candidates.Keys, byClass)
    ensures byClass.Keys == set k | k in r.candidates :: ClassName(r.candidates[k])
  {
    hide BucketOf, ClassName;
    var all := r.candidates.Keys;
    byClass := map c | c in (set k | k in all :: ClassName(r.candidates[k])) :: BucketOf(r, all, c);
    forall c | c in byClass ensures byClass[c].found > 0 {
      var k :| k in all && ClassName(r.candidates[k]) == c;
      BucketHolds(r, k);
    }
  }

  lemma BucketHolds(r: Round, k: string)
    requires k in r.candidates
    ensures BucketOf(r, r.candidates.Keys, ClassName(r.candidates[k])).found > 0
  {
    assert k in InClass(r.candidates.Keys, ClassOf(r), ClassName(r.candidates[k]));
  }

  lemma FailuresExist(r: Round) returns (failures: map<string, nat>)
    ensures FailuresOf(r, r.candidates.Keys, failures)
  {
    hide InClass, FailureOf, FailureName;
    var all := r.candidates.Keys;
    failures := map n | n in (set k | k in all :: FailureName(r, k)) :: |InClass(FailedSet(r) * all, FailureOf(r), n)|;
  }

  /** Every round has a measurement: the one `rate` computes. */
  lemma Measurable(r: Round) returns (f: Figures)
    requires ValidRound(r)
    ensures Measures(r, f)
    ensures f.byClass.Keys == set k | k in r.candidates :: ClassName(r.candidates[k])
  {
    hide BucketsOf, FailuresOf, PoolOf, ClassifiedSet, ClassName;
    var byClass := BucketsExist(r);
    var failures := FailuresExist(r);
    f := Figures(|r.candidates.Keys|, |ClassifiedSet(r)|, PoolOf(r), byClass, failures, r.documents != map[]);
  }

  lemma MixedNames(n: nat, m: nat, end: nat, k: string)
    requires n <= m < end
    ensures k in Names(0, end) ==>
      (k in Names(0, m) <==> |k| < m) && (k in Names(m, end) <==> |k| >= m) && (k in Names(0, n) <==> |k| < n)
    ensures k in Names(0, m) || k in Names(m, end) || k in Names(0, n) ==> k in Names(0, end)
  {
    if k in Names(0, end) {
      InNames(k, m, end);
      assert k == Name(|k|);
    }
  }

  lemma MixedObtained(low: string, high: string, n: nat, m: nat, more: nat)
    requires n <= m && 0 < more
    ensures var r := MixedRound(low, high, n, m, more);
            ValidRound(r) && r.candidates.Keys == Names(0, m + more)
            && ObtainedSet(r) == Names(0, n) + Names(m, m + more) && ObtainedSet(r) <= r.candidates.Keys
    ensures Names(0, n) !! Names(m, m + more)
  {
    hide Names;
    var r := MixedRound(low, high, n, m, more);
    forall k
      ensures k in Names(0, n) + Names(m, m + more) ==> k in Names(0, m + more)
      ensures !(k in Names(0, n) && k in Names(m, m + more))
    {
      MixedNames(n, m, m + more, k);
    }
  }

  lemma MixedClasses(low: string, high: string, n: nat, m: nat, more: nat)
    requires 0 < m && n <= m && 0 < more && low != high && low != "" && high != ""
    ensures var r := MixedRound(low, high, n, m, more);
            var all := r.candidates.Keys;
            InClass(all, ClassOf(r), low) == Names(0, m) && InClass(all, ClassOf(r), high) == Names(m, m + more)
  {
    hide Names;
    var r := MixedRound(low, high, n, m, more);
    forall k
      ensures k in InClass(r.candidates.Keys, ClassOf(r), low) <==> k in Names(0, m)
      ensures k in InClass(r.candidates.Keys, ClassOf(r), high) <==> k in Names(m, m + more)
    {
      MixedNames(n, m, m + more, k);
    }
  }

  lemma MixedObtainedClasses(low: string, high: string, n: nat, m: nat, more: nat)
    requires 0 < m && n <= m && 0 < more && low != high && low != "" && high != ""
    ensures var r := MixedRound(low, high, n, m, more);
            InClass(ObtainedSet(r), ClassOf(r), low) == Names(0, n)
            && InClass(ObtainedSet(r), ClassOf(r), high) == Names(m, m + more)
  {
    hide Names, ObtainedSet;
    var r := MixedRound(low, high, n, m, more);
    MixedObtained(low, high, n, m, more);
    forall k
      ensures k in InClass(ObtainedSet(r), ClassOf(r), low) <==> k in Names(0, n)
      ensures k in InClass(ObtainedSet(r), ClassOf(r), high) <==> k in Names(m, m + more)
    {
      MixedNames(n, m, m + more, k);
    }
  }

  lemma MixedFigures(low: string, high: string, n: nat, m: nat, more: nat) returns (r: Round, f: Figures)
    requires 0 < m && n <= m && 0 < more && low != high && low != "" && high != ""
    ensures ValidRound(r) && Measures(r, f) && f.byClass.Keys == {low, high} && f.found == m + more
    ensures RateOf(f) == Some(Share(n + more, m + more))
    ensures ClassRate(f.started, f.byClass[low]) == Share(n, m) && ClassRate(f.started, f.byClass[high]) == 1.0
  {
    hide Names, ObtainedSet, InClass, ClassOf, Share, Measures, ClassName;
    r := MixedRound(low, high, n, m, more);
    MixedObtained(low, high, n, m, more);
    MixedClasses(low, high, n, m, more);
    MixedObtainedClasses(low, high, n, m, more);
    NamesCounted(0, m + more);
    NamesCounted(0, n);
    NamesCounted(0, m);
    NamesCounted(m, m + more);
    f := Measurable(r);
    MixedKeys(low, high, n, m, more);
    MixedCounts(r, f, low, high, n, m, more);
    ShareRange(more, more);
  }

  lemma MixedKeys(low: string, high: string, n: nat, m: nat, more: nat)
    requires 0 < m && n <= m && 0 < more && low != high && low != "" && high != ""
    ensures var r := MixedRound(low, high, n, m, more);
            (set k | k in r.candidates :: ClassName(r.candidates[k])) == {low, high}
  {
    var r := MixedRound(low, high, n, m, more);
    assert Name(0) in r.candidates && |Name(0)| == 0 && ClassName(r.candidates[Name(0)]) == low;
    assert Name(m) in r.candidates && |Name(m)| == m && ClassName(r.candidates[Name(m)]) == high;
  }

  lemma MixedCounts(r: Round, f: Figures, low: string, high: string, n: nat, m: nat, more: nat)
    requires 0 < m && n <= m && 0 < more && ValidRound(r) && Measures(r, f) && r.documents == map[]
    requires f.byClass.Keys == {low, high} && ObtainedSet(r) <= r.candidates.Keys
    requires |r.candidates.Keys| == m + more && |ObtainedSet(r)| == n + more
    requires |InClass(r.candidates.Keys, ClassOf(r), low)| == m
        && |InClass(r.candidates.Keys, ClassOf(r), high)| == more
    requires |InClass(ObtainedSet(r), ClassOf(r), low)| == n && |InClass(ObtainedSet(r), ClassOf(r), high)| == more
    ensures f.found == m + more && RateOf(f) == Some(Share(n + more, m + more))
    ensures ClassRate(f.started, f.byClass[low]) == Share(n, m)
    ensures ClassRate(f.started, f.byClass[high]) == Share(more, more)
  {
    hide FailuresOf, ClassifiedSet, InClass, Share;
    assert ObtainedSet(r) * r.candidates.Keys == ObtainedSet(r) == ObtainedSet(r) * r.rows.Keys;
    assert f.byClass[low] == BucketOf(r, r.candidates.Keys, low)
        && f.byClass[high] == BucketOf(r, r.candidates.Keys, high);
  }

  lemma Quotient(a: real, b: real) returns (q: real)
    requires b > 0.0
    ensures q * b == a
  {
    q := a / b;
  }

  lemma Grows(a: real, b: real, by': real)
    requires a < b && by' > 0.0
    ensures a * by' < b * by'
  {
    assert (b - a) * by' > 0.0;
  }

  lemma Beyond(q: real) returns (m: nat)
    ensures 0 < m && m as real > q
    ensures q >= 0.0 ==> m as real <= q + 1.0
  {
    m := if q < 0.0 then 1 else q.Floor + 1;
  }

  /** A whole number strictly between `lo * m` and `hi * m`, from `lo * m` up. */
  lemma WholeBetween(lo: real, hi: real) returns (n: nat, m: nat)
    requires 0.0 < lo < hi
    ensures 0 < m && lo * (m as real) <= n as real < hi * (m as real)
  {
    var q := Quotient(1.0, hi - lo);
    m := Beyond(q);
    var d := m as real;
    Grows(q, d, hi - lo);
    assert d * (hi - lo) == hi * d - lo * d;
    Grows(0.0, lo, d);
    n := Beyond(lo * d);
  }

  lemma ShareInside(n: nat, m: nat, lo: real, hi: real)
    requires 0 < m && lo * (m as real) <= n as real < hi * (m as real)
    ensures lo <= Share(n, m) < hi
  {
    var d, share := m as real, Share(n, m);
    ShareTimes(n, m);
    if share < lo { Grows(share, lo, d); }
    if hi < share { Grows(hi, share, d); }
  }

  /** A share from `lo` up and below `hi`. */
  lemma ShareBetween(lo: real, hi: real) returns (n: nat, m: nat)
    requires lo < hi && 0.0 < hi <= 1.0
    ensures 0 < m && n <= m && lo <= Share(n, m) < hi
  {
    if lo <= 0.0 {
      n, m := 0, 1;
      ShareRange(0, 1);
      ShareTimes(0, 1);
    } else {
      n, m := WholeBetween(lo, hi);
      if hi < 1.0 { Grows(hi, 1.0, m as real); }
      ShareInside(n, m, lo, hi);
    }
  }

  lemma Lift(n: real, d: real, e: real, floor: real)
    requires 0.0 < floor < 1.0 && 0.0 <= n && 0.0 <= d && e * (1.0 - floor) > d
    ensures n + e >= floor * (d + e)
  {
    if d > 0.0 { Grows(floor, 1.0, d); }
    assert e * (1.0 - floor) == e - floor * e;
    assert floor * (d + e) == floor * d + floor * e;
  }

  /** Enough obtained candidates of another class lift the pooled rate over the floor. */
  lemma EnoughMore(n: nat, m: nat, floor: real) returns (more: nat)
    requires n <= m && 0.0 < floor < 1.0
    ensures 0 < more && Share(n + more, m + more) >= floor
  {
    var q := Quotient(m as real, 1.0 - floor);
    more := Beyond(q);
    Grows(q, more as real, 1.0 - floor);
    Lift(n as real, m as real, more as real, floor);
    assert (n + more) as real == n as real + more as real && (m + more) as real == m as real + more as real;
    ShareAtLeast(n + more, m + more, floor);
  }

  lemma LowFloorAdmits(floor: real, declared: map<string, real>, low: string) returns (r: Round, f: Figures)
    requires 0.0 < floor < 1.0 && low in declared && low != "" && declared[low] < floor
    ensures ValidRound(r) && Measures(r, f) && Admitted(f, floor, declared) && !Admitted(f, floor, map[])
  {
    hide Share, Measures;
    var n, m := ShareBetween(declared[low], floor);
    var more := EnoughMore(n, m, floor);
    var high := FreshName(declared.Keys + {low});
    r, f := MixedFigures(low, high, n, m, more);
    MeasuredClassesFound(r, f);
    assert low in f.byClass && FloorOf(floor, map[], low) == floor;
  }

  lemma MeasuredClassesFound(r: Round, f: Figures)
    requires Measures(r, f)
    ensures forall c :: c in f.byClass ==> f.byClass[c].found > 0
  {}

  /** Declared class floors only make admission harder, on every measured round, if and only if the
      project floor is trivial or unreachable short of everything, or no class floor is below it. */
  lemma FloorsTightenExactlyWhen(floor: real, declared: map<string, real>)
    ensures OnlyTighten(floor, declared) <==> floor <= 0.0 || floor >= 1.0 || NoneBelow(floor, declared)
  {
    hide PoolOf, BucketOf, FailuresOf, ClassifiedSet, Share;
    if floor <= 0.0 || floor >= 1.0 || NoneBelow(floor, declared) {
      forall r, f | ValidRound(r) && Measures(r, f)
        ensures Admitted(f, floor, declared) ==> Admitted(f, floor, map[])
      {
        MeasuredClassesFound(r, f);
        if Admitted(f, floor, declared) { Tighten(floor, declared, r, f); }
      }
    } else {
      var low :| low in declared && low != "" && declared[low] < floor;
      var r, f := LowFloorAdmits(floor, declared, low);
    }
  }
}
