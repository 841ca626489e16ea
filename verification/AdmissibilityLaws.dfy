/** What the acquisition figures promise. */
module AdmissibilityLaws {
  import opened Seqs
  import opened Ledger
  import opened Sums
  import opened Admissibility

  // ---------- collapse in closed form ----------

  /** A row that decides: a success, or a re-reading of an earlier one. */
  predicate Decides(row: Acquisition) { row.acquired || row.regated }

  function LastDecisive(rows: seq<Acquisition>, excluded: set<string>, key: string): Option<Acquisition> {
    if rows == [] then None
    else
      var row := rows[|rows| - 1];
      if Counts(row, excluded) && row.key.value == key && Decides(row) then Some(row)
      else LastDecisive(rows[..|rows| - 1], excluded, key)
  }

  predicate Acquired(best: map<string, Acquisition>, key: string) { key in best && best[key].acquired }

  /** A candidate counts as acquired if and only if its last deciding row is a success. */
  lemma {:induction false} AcquiredExactlyWhen(rows: seq<Acquisition>, excluded: set<string>, key: string)
    ensures Acquired(Collapsed(rows, excluded), key) <==>
      LastDecisive(rows, excluded, key).Some? && LastDecisive(rows, excluded, key).value.acquired
  {
    if rows != [] {
      AcquiredExactlyWhen(rows[..|rows| - 1], excluded, key);
    }
  }

  lemma {:induction false} LastDecisiveIgnores(rows: seq<Acquisition>, excluded: set<string>, key: string)
    ensures LastDecisive(rows, excluded, key) == LastDecisive(Filter(Decides, rows), excluded, key)
  {
    if rows != [] {
      var front, row := rows[..|rows| - 1], rows[|rows| - 1];
      LastDecisiveIgnores(front, excluded, key);
      assert rows == front + [row];
      FilterConcat(Decides, front, [row]);
      if Decides(row) {
        assert Filter(Decides, rows) == Filter(Decides, front) + [row];
        assert Filter(Decides, rows)[..|Filter(Decides, rows)| - 1] == Filter(Decides, front);
      } else {
        assert Filter(Decides, rows) == Filter(Decides, front);
      }
    }
  }

  /** Ordinary failed retries change no verdict, wherever in the ledger they stand. */
  lemma FailedRetriesChangeNothing(a: seq<Acquisition>, b: seq<Acquisition>, excluded: set<string>, key: string)
    requires Filter(Decides, a) == Filter(Decides, b)
    ensures Acquired(Collapsed(a, excluded), key) <==> Acquired(Collapsed(b, excluded), key)
  {
    AcquiredExactlyWhen(a, excluded, key);
    AcquiredExactlyWhen(b, excluded, key);
    LastDecisiveIgnores(a, excluded, key);
    LastDecisiveIgnores(b, excluded, key);
  }

  ghost predicate SuppliedAreSuccesses(rows: seq<Acquisition>) {
    forall i :: 0 <= i < |rows| && rows[i].provenance == OPERATOR_SUPPLIED ==> rows[i].acquired
  }

  lemma {:induction false} SuppliedOnlyAdd(rows: seq<Acquisition>, key: string)
    requires SuppliedAreSuccesses(rows) && Acquired(Collapsed(rows, {OPERATOR_SUPPLIED}), key)
    ensures Acquired(Collapsed(rows, {}), key)
  {
    if rows != [] {
      var front, row := rows[..|rows| - 1], rows[|rows| - 1];
      if Acquired(Collapsed(front, {OPERATOR_SUPPLIED}), key) {
        SuppliedOnlyAdd(front, key);
      }
    }
  }

  lemma SubsetIsSmaller<T>(a: set<T>, b: set<T>)
    requires a <= b
    ensures |a| <= |b|
  {
    assert b == a + (b - a);
  }

  /** Counting operator-supplied successes never lowers what was obtained. */
  lemma SeparateNeverExceedsCount(s: Store, sel: Selection)
    requires SuppliedAreSuccesses(s.acquisitions)
    ensures |ObtainedSet(RoundFor(s, sel, false))| <= |ObtainedSet(RoundFor(s, sel, true))|
  {
    var separate, count := RoundFor(s, sel, false), RoundFor(s, sel, true);
    forall k | k in ObtainedSet(separate) ensures k in ObtainedSet(count) {
      SuppliedOnlyAdd(s.acquisitions, k);
    }
    SubsetIsSmaller(ObtainedSet(separate), ObtainedSet(count));
  }

  // ---------- what is confirmed either way ----------

  function DocumentsOf(s: Store): map<string, Document> { LatestBy(s.documents, (d: Document) => d.sourceId) }

  /** The row is a success and names a document judged to be one. */
  predicate Confirms(documents: map<string, Document>, key: string, row: Option<Acquisition>) {
    row.Some? && row.value.acquired && Identifier(key, row.value) in documents
    && documents[Identifier(key, row.value)].confirmed
  }

  lemma {:induction false} SuccessIsShown(rows: seq<Acquisition>, excluded: set<string>, key: string)
    requires LastDecisive(rows, excluded, key).Some? && LastDecisive(rows, excluded, key).value.acquired
    ensures key in Collapsed(rows, excluded)
        && Collapsed(rows, excluded)[key] == LastDecisive(rows, excluded, key).value
  {
    var row := rows[|rows| - 1];
    if !(Counts(row, excluded) && row.key.value == key && Decides(row)) {
      SuccessIsShown(rows[..|rows| - 1], excluded, key);
    }
  }

  /** A selected candidate is confirmed if and only if its last deciding row names a confirmed document. */
  lemma ConfirmedExactlyWhen(s: Store, sel: Selection, countSupplied: bool, key: string)
    ensures key in ConfirmedSet(RoundFor(s, sel, countSupplied)) <==>
      key in Selected(s, sel)
      && Confirms(DocumentsOf(s), key, LastDecisive(s.acquisitions, Excluded(countSupplied), key))
  {
    var excluded := Excluded(countSupplied);
    hide Selected, LatestBy, Collapsed, LastDecisive, Excluded;
    AcquiredExactlyWhen(s.acquisitions, excluded, key);
    var last := LastDecisive(s.acquisitions, excluded, key);
    if last.Some? && last.value.acquired {
      SuccessIsShown(s.acquisitions, excluded, key);
    }
  }

  predicate IsSupplied(row: Option<Acquisition>) { row.Some? && row.value.provenance == OPERATOR_SUPPLIED }

  /** Leaving out operator-supplied rows changes the last deciding row only where it is one. */
  lemma {:induction false} OwnRowDecidesBoth(rows: seq<Acquisition>, key: string)
    requires !IsSupplied(LastDecisive(rows, {}, key))
    ensures LastDecisive(rows, {OPERATOR_SUPPLIED}, key) == LastDecisive(rows, {}, key)
  {
    if rows != [] {
      var row := rows[|rows| - 1];
      if !(row.key == Some(key) && Decides(row)) {
        OwnRowDecidesBoth(rows[..|rows| - 1], key);
      }
    }
  }

  /** The line for operator-supplied copies names exactly the candidates `count` obtains and `separate`
      does not. */
  lemma SuppliedLineIsTheDifference(s: Store, sel: Selection)
    ensures SuppliedOnly(s, sel, false).Keys ==
        ObtainedSet(RoundFor(s, sel, true)) - ObtainedSet(RoundFor(s, sel, false))
  {
    hide Selected, LatestBy, Collapsed, LastDecisive;
    forall k
      ensures k in SuppliedOnly(s, sel, false) <==>
        k in ObtainedSet(RoundFor(s, sel, true)) - ObtainedSet(RoundFor(s, sel, false))
    {
      AcquiredExactlyWhen(s.acquisitions, {}, k);
      AcquiredExactlyWhen(s.acquisitions, {OPERATOR_SUPPLIED}, k);
      var last := LastDecisive(s.acquisitions, {}, k);
      if last.Some? && last.value.acquired { SuccessIsShown(s.acquisitions, {}, k); }
      if !IsSupplied(last) { OwnRowDecidesBoth(s.acquisitions, k); }
    }
  }

  /** The last deciding row is operator-supplied and names no confirmed document, while the last
      deciding row of Claimstone's own does. */
  predicate Hidden(s: Store, key: string) {
    var last, own := LastDecisive(s.acquisitions, {}, key), LastDecisive(s.acquisitions, {OPERATOR_SUPPLIED}, key);
    IsSupplied(last) && !Confirms(DocumentsOf(s), key, last) && Confirms(DocumentsOf(s), key, own)
  }

  /** The other way round: only the operator-supplied row names a confirmed document. */
  predicate Added(s: Store, key: string) {
    var last, own := LastDecisive(s.acquisitions, {}, key), LastDecisive(s.acquisitions, {OPERATOR_SUPPLIED}, key);
    IsSupplied(last) && Confirms(DocumentsOf(s), key, last) && !Confirms(DocumentsOf(s), key, own)
  }

  /** Exactly which candidates are confirmed under one policy and not under the other. */
  lemma ConfirmedApartExactlyWhen(s: Store, sel: Selection, key: string)
    ensures var separate, count := ConfirmedSet(RoundFor(s, sel, false)), ConfirmedSet(RoundFor(s, sel, true));
      && (key in separate - count <==> key in Selected(s, sel) && Hidden(s, key))
      && (key in count - separate <==> key in Selected(s, sel) && Added(s, key))
  {
    ConfirmedExactlyWhen(s, sel, false, key);
    ConfirmedExactlyWhen(s, sel, true, key);
    if !IsSupplied(LastDecisive(s.acquisitions, {}, key)) {
      OwnRowDecidesBoth(s.acquisitions, key);
    }
    hide Selected, LastDecisive, ConfirmedSet, RoundFor, Confirms;
  }

  function HiddenSet(s: Store, sel: Selection): set<string> { set k | k in Selected(s, sel) && Hidden(s, k) }
  function AddedSet(s: Store, sel: Selection): set<string> { set k | k in Selected(s, sel) && Added(s, k) }

  lemma SizesApart<T>(a: set<T>, b: set<T>)
    ensures |a| - |b| == |a - b| - |b - a|
  {
    assert a == (a * b) + (a - b) && b == (a * b) + (b - a);
  }

  /** The confirmed figure under `separate` is at most the one under `count` if and only if
      operator-supplied copies hide no more confirmations than they add. */
  lemma SeparateConfirmsNoMoreExactlyWhen(s: Store, sel: Selection)
    ensures |ConfirmedSet(RoundFor(s, sel, false))| <= |ConfirmedSet(RoundFor(s, sel, true))|
       <==> |HiddenSet(s, sel)| <= |AddedSet(s, sel)|
    ensures ConfirmedSet(RoundFor(s, sel, false)) <= ConfirmedSet(RoundFor(s, sel, true)) <==> HiddenSet(s, sel) == {}
  {
    var separate, count := ConfirmedSet(RoundFor(s, sel, false)), ConfirmedSet(RoundFor(s, sel, true));
    hide Selected, LastDecisive, ConfirmedSet, RoundFor, Hidden, Added;
    forall k
      ensures k in separate - count <==> k in HiddenSet(s, sel)
      ensures k in count - separate <==> k in AddedSet(s, sel)
    {
      ConfirmedApartExactlyWhen(s, sel, k);
    }
    assert separate - count == HiddenSet(s, sel) && count - separate == AddedSet(s, sel);
    SizesApart(separate, count);
  }

  /** It can hide one: of two successes for one candidate, a later operator-supplied copy filed under
      a source nobody judged hides the confirmed one. */
  lemma SuppliedCopyCanHideAConfirmation(found: Acquisition, supplied: Acquisition, candidate: Candidate)
    requires found.key == supplied.key == candidate.key == Some("k")
    requires found.acquired && supplied.acquired && found.sourceId == "S1" && supplied.sourceId == "S2"
    requires supplied.provenance == OPERATOR_SUPPLIED && found.provenance != OPERATOR_SUPPLIED
    ensures var s := Store([candidate], [found, supplied], [Document(Some("S1"), true, found.sha)], [], false);
      && SuppliedAreSuccesses(s.acquisitions)
      && ConfirmedSet(RoundFor(s, Selection(None, false), false)) == {"k"}
      && ConfirmedSet(RoundFor(s, Selection(None, false), true)) == {}
  {
    var s := Store([candidate], [found, supplied], [Document(Some("S1"), true, found.sha)], [], false);
    assert s.acquisitions[..1] == [found] && [found][..0] == [];
    forall excluded
      ensures Collapsed([found], excluded) == if Counts(found, excluded) then map["k" := found] else map[]
    {}
    assert Collapsed(s.acquisitions, {}) == map["k" := supplied];
    assert Collapsed(s.acquisitions, {OPERATOR_SUPPLIED}) == map["k" := found];
    hide Collapsed;
    assert s.candidates[..0] == [] && s.documents[..0] == [];
    assert LatestBy(s.documents, (d: Document) => d.sourceId) == map["S1" := s.documents[0]];
    assert LatestBy(s.candidates, (c: Candidate) => c.key) == map["k" := candidate];
    assert "S1" != "S2";
    hide LatestBy;
    var separate, count := RoundFor(s, Selection(None, false), false), RoundFor(s, Selection(None, false), true);
    assert separate.rows == map["k" := found] && count.rows == map["k" := supplied];
    hide RoundFor;
    assert Confirmed(separate, "k") && "k" in separate.rows;
    assert !Confirmed(count, "k");
  }

  // ---------- the figures ----------

  lemma ShareBounds(a: nat, b: nat, of: nat)
    requires 0 < of && a <= b <= of
    ensures 0.0 <= Share(a, of) <= Share(b, of) <= 1.0
  {
    DivideMonotone(0, a, of);
    DivideMonotone(a, b, of);
    DivideMonotone(b, of, of);
    ShareEnds(of);
    hide Share;
    assert Share(b, of) <= 1.0;
  }

  lemma ShareEnds(of: nat)
    requires 0 < of
    ensures Share(0, of) == 0.0 && Share(of, of) == 1.0
  {
    var d := of as real;
    assert d / d == 1.0 && 0.0 / d == 0.0;
  }

  lemma DivideMonotone(a: nat, b: nat, of: nat)
    requires 0 < of && a <= b
    ensures Share(a, of) <= Share(b, of)
  {
    var d := of as real;
    assert b as real / d - a as real / d == (b - a) as real / d;
    assert (b - a) as real / d >= 0.0;
  }

  lemma Within(s: set<string>, whole: set<string>)
    requires s <= whole
    ensures s * whole == s
  {}

  /** The pool's figures are the sizes of its sets. */
  lemma PoolSizes(r: Round)
    ensures PoolOf(r) == Pool(|r.rows.Keys|, |ObtainedSet(r)|, |ConfirmedSet(r)|, |AwaitingSet(r)|, |RefutedSet(r)|)
  {
    Within(ObtainedSet(r), r.rows.Keys);
    Within(ConfirmedSet(r), r.rows.Keys);
    Within(AwaitingSet(r), r.rows.Keys);
    Within(RefutedSet(r), r.rows.Keys);
  }

  lemma ThreeParts<T>(whole: set<T>, a: set<T>, b: set<T>, c: set<T>)
    requires whole == a + b + c && a !! b && a !! c && b !! c
    ensures |whole| == |a| + |b| + |c|
  {
    assert |a + b| == |a| + |b|;
    assert |a + b + c| == |a + b| + |c|;
  }

  lemma PoolParts(r: Round)
    requires ValidRound(r)
    ensures PoolOf(r).obtained == PoolOf(r).confirmed + PoolOf(r).awaiting + PoolOf(r).refuted
    ensures PoolOf(r).obtained <= PoolOf(r).attempted <= |r.candidates.Keys|
  {
    PoolSizes(r);
    hide PoolOf;
    ThreeParts(ObtainedSet(r), ConfirmedSet(r), AwaitingSet(r), RefutedSet(r));
    SubsetIsSmaller(ObtainedSet(r), r.rows.Keys);
    SubsetIsSmaller(r.rows.Keys, r.candidates.Keys);
  }

  /** Everything obtained is confirmed, awaiting or refuted, and 0 <= rate <= ceiling <= 1. */
  lemma RateIsBounded(r: Round, f: Figures)
    requires ValidRound(r) && Measures(r, f)
    ensures f.pool.obtained == f.pool.confirmed + f.pool.awaiting + f.pool.refuted
    ensures f.found > 0 ==> 0.0 <= RateOf(f).value <= RateUpperOf(f).value <= 1.0
  {
    PoolParts(r);
    if f.found > 0 {
      ShareBounds(Lower(f.started, f.pool.obtained, f.pool.confirmed),
                  Upper(f.started, f.pool.obtained, f.pool.confirmed, f.pool.awaiting), f.found);
    }
  }

  /** A final round is settled: every found candidate was attempted and the bounds have met. */
  lemma FinalMeansSettled(s: Store, sel: Selection, countSupplied: bool, rep: Report)
    requires IsReport(s, sel, countSupplied, rep) && rep.blocking == {}
    ensures rep.figures.pool.attempted == rep.figures.found && rep.figures.started
    ensures rep.figures.pool.awaiting == 0 && RateOf(rep.figures) == RateUpperOf(rep.figures)
  {
    hide PoolOf, BucketsOf, FailuresOf, RoundFor;
    assert AwaitingAcquire !in rep.blocking && NormalizeNotStarted !in rep.blocking
        && AwaitingNormalize !in rep.blocking;
    FiguresAreOrdered(RoundFor(s, sel, countSupplied), rep.figures);
  }

  lemma FiguresAreOrdered(r: Round, f: Figures)
    requires ValidRound(r) && Measures(r, f)
    ensures f.pool.obtained == f.pool.confirmed + f.pool.awaiting + f.pool.refuted
    ensures f.pool.obtained <= f.pool.attempted <= f.found
  {
    PoolParts(r);
  }

  /** Once any document was judged, judging one more source can only raise the confirmed count and
      lower the ceiling; the obtained count does not move. */
  lemma JudgingNarrows(r: Round, d: Document)
    requires ValidRound(r) && d.sourceId.Some? && d.sourceId.value !in r.documents
    ensures var p, p' := PoolOf(r), PoolOf(r.(documents := r.documents[d.sourceId.value := d]));
      p'.obtained == p.obtained && p'.confirmed >= p.confirmed
      && p'.confirmed + p'.awaiting <= p.confirmed + p.awaiting
  {
    var r' := r.(documents := r.documents[d.sourceId.value := d]);
    PoolParts(r);
    PoolParts(r');
    PoolSizes(r);
    PoolSizes(r');
    JudgedSetsGrow(r, d);
    hide PoolOf, ObtainedSet, ConfirmedSet, AwaitingSet, RefutedSet;
    SubsetIsSmaller(ConfirmedSet(r), ConfirmedSet(r'));
    SubsetIsSmaller(RefutedSet(r), RefutedSet(r'));
  }

  lemma JudgedSetsGrow(r: Round, d: Document)
    requires d.sourceId.Some? && d.sourceId.value !in r.documents
    ensures var r' := r.(documents := r.documents[d.sourceId.value := d]);
      ObtainedSet(r') == ObtainedSet(r) && ConfirmedSet(r) <= ConfirmedSet(r') && RefutedSet(r) <= RefutedSet(r')
  {}

  lemma DocumentRowAppended(s: Store, sel: Selection, countSupplied: bool, d: Document)
    requires d.sourceId.Some?
    ensures var r := RoundFor(s, sel, countSupplied);
      RoundFor(s.(documents := s.documents + [d]), sel, countSupplied)
        == r.(documents := r.documents[d.sourceId.value := d])
  {
    LatestSnoc(s.documents, d, (x: Document) => x.sourceId);
  }

  lemma BoundsFollow(found: nat, p: Pool, p': Pool)
    requires found > 0 && p'.confirmed >= p.confirmed && p'.confirmed + p'.awaiting <= p.confirmed + p.awaiting
    ensures Share(p.confirmed, found) <= Share(p'.confirmed, found)
    ensures Share(p'.confirmed + p'.awaiting, found) <= Share(p.confirmed + p.awaiting, found)
  {
    DivideMonotone(p.confirmed, p'.confirmed, found);
    DivideMonotone(p'.confirmed + p'.awaiting, p.confirmed + p.awaiting, found);
  }

  /** The same over ledgers: once any document row exists, one more for a source not yet judged can
      only raise the rate and lower its ceiling. */
  lemma DocumentRowNarrowsBounds(s: Store, sel: Selection, countSupplied: bool, d: Document, f: Figures, f': Figures)
    requires d.sourceId.Some? && d.sourceId.value !in RoundFor(s, sel, countSupplied).documents
    requires RoundFor(s, sel, countSupplied).documents != map[]
    requires Measures(RoundFor(s, sel, countSupplied), f)
    requires Measures(RoundFor(s.(documents := s.documents + [d]), sel, countSupplied), f')
    ensures f'.found == f.found
    ensures f.found > 0 ==> RateOf(f).value <= RateOf(f').value && RateUpperOf(f').value <= RateUpperOf(f).value
  {
    var r := RoundFor(s, sel, countSupplied);
    hide PoolOf, BucketsOf, FailuresOf, RoundFor, ClassifiedSet;
    DocumentRowAppended(s, sel, countSupplied, d);
    JudgingNarrows(r, d);
    assert d.sourceId.value in r.documents[d.sourceId.value := d];
    if f.found > 0 {
      BoundsFollow(f.found, f.pool, f'.pool);
    }
  }

  // ---------- the two loops agree ----------

  function Found(byClass: map<string, Bucket>): map<string, nat> { map c | c in byClass :: byClass[c].found }
  function ObtainedOf(byClass: map<string, Bucket>): map<string, nat> { map c | c in byClass :: byClass[c].obtained }
  function ConfirmedOf(byClass: map<string, Bucket>): map<string, nat> { map c | c in byClass :: byClass[c].confirmed }
  function AwaitingOf(byClass: map<string, Bucket>): map<string, nat> { map c | c in byClass :: byClass[c].awaiting }

  lemma ClassTotal(r: Round, s: set<string>, sizes: map<string, nat>)
    requires s <= r.candidates.Keys
    requires forall k :: k in r.candidates ==> ClassName(r.candidates[k]) in sizes
    requires forall c :: c in sizes ==> sizes[c] == |InClass(s * r.candidates.Keys, ClassOf(r), c)|
    ensures Total(sizes) == |s|
  {
    Within(s, r.candidates.Keys);
    ClassesPartition(s, ClassOf(r), sizes);
  }

  lemma FoundAddsUp(r: Round, byClass: map<string, Bucket>)
    requires ValidRound(r) && BucketsOf(r, r.candidates.Keys, byClass)
    ensures Total(Found(byClass)) == |r.candidates.Keys|
  {
    Within(r.candidates.Keys, r.candidates.Keys);
    ClassTotal(r, r.candidates.Keys, Found(byClass));
  }

  lemma ObtainedAddsUp(r: Round, byClass: map<string, Bucket>)
    requires ValidRound(r) && BucketsOf(r, r.candidates.Keys, byClass)
    ensures Total(ObtainedOf(byClass)) == |ObtainedSet(r)|
  {
    ClassTotal(r, ObtainedSet(r), ObtainedOf(byClass));
  }

  lemma ConfirmedAddsUp(r: Round, byClass: map<string, Bucket>)
    requires ValidRound(r) && BucketsOf(r, r.candidates.Keys, byClass)
    ensures Total(ConfirmedOf(byClass)) == |ConfirmedSet(r)|
  {
    ClassTotal(r, ConfirmedSet(r), ConfirmedOf(byClass));
  }

  lemma AwaitingAddsUp(r: Round, byClass: map<string, Bucket>)
    requires ValidRound(r) && BucketsOf(r, r.candidates.Keys, byClass)
    ensures Total(AwaitingOf(byClass)) == |AwaitingSet(r)|
  {
    ClassTotal(r, AwaitingSet(r), AwaitingOf(byClass));
  }

  /** The per-class loop over candidates and the pooled loop over rows count the same things. */
  lemma ClassesAddUp(r: Round, f: Figures)
    requires ValidRound(r) && Measures(r, f)
    ensures Total(Found(f.byClass)) == f.found && Total(ObtainedOf(f.byClass)) == f.pool.obtained
    ensures Total(ConfirmedOf(f.byClass)) == f.pool.confirmed && Total(AwaitingOf(f.byClass)) == f.pool.awaiting
  {
    PoolSizes(r);
    FoundAddsUp(r, f.byClass);
    ObtainedAddsUp(r, f.byClass);
    ConfirmedAddsUp(r, f.byClass);
    AwaitingAddsUp(r, f.byClass);
  }

  lemma FailedAndObtained(r: Round)
    requires ValidRound(r)
    ensures |FailedSet(r)| == |r.candidates.Keys| - |ObtainedSet(r)|
  {
    assert r.candidates.Keys == FailedSet(r) + ObtainedSet(r);
    assert |FailedSet(r) + ObtainedSet(r)| == |FailedSet(r)| + |ObtainedSet(r)|;
  }

  /** Every found candidate is obtained or counted under exactly one failure. */
  lemma FailuresAddUp(r: Round, f: Figures)
    requires ValidRound(r) && Measures(r, f)
    ensures Total(f.failures) == f.found - f.pool.obtained
  {
    PoolSizes(r);
    FailedAndObtained(r);
    Within(FailedSet(r), r.candidates.Keys);
    ClassesPartition(FailedSet(r), FailureOf(r), f.failures);
  }

  // ---------- floors ----------

  function Weighed(started: bool, byClass: map<string, Bucket>): map<string, nat> {
    map c | c in byClass :: Lower(started, byClass[c].obtained, byClass[c].confirmed)
  }

  lemma ShareAtLeast(n: nat, of: nat, floor: real)
    requires of > 0
    ensures Share(n, of) >= floor <==> AtLeast(n, of, floor)
  {
    var d := of as real;
    assert Share(n, of) * d == n as real;
    if Share(n, of) >= floor {
      assert (Share(n, of) - floor) * d >= 0.0;
    } else {
      assert (floor - Share(n, of)) * d > 0.0;
    }
  }

  predicate AtLeast(n: nat, of: nat, floor: real) { n as real >= floor * (of as real) }

  predicate Meets(ns: map<string, nat>, ofs: map<string, nat>, floor: real) {
    ns.Keys == ofs.Keys && forall c :: c in ns ==> AtLeast(ns[c], ofs[c], floor)
  }

  lemma MeetsSum(a: nat, b: nat, of: nat, total: nat, floor: real)
    requires AtLeast(a, of, floor) && AtLeast(b, total, floor)
    ensures AtLeast(a + b, of + total, floor)
  {
    assert floor * ((of + total) as real) == floor * (of as real) + floor * (total as real);
  }

  lemma TotalsStep(ns: map<string, nat>, ofs: map<string, nat>, floor: real, c: string)
    requires c in ns && c in ofs && AtLeast(ns[c], ofs[c], floor)
    requires AtLeast(Total(ns - {c}), Total(ofs - {c}), floor)
    ensures AtLeast(Total(ns), Total(ofs), floor)
  {
    hide Total;
    TotalWithout(ns, c);
    TotalWithout(ofs, c);
    MeetsSum(ns[c], Total(ns - {c}), ofs[c], Total(ofs - {c}), floor);
  }

  /** Totals of classes that each meet a floor meet it together. */
  lemma {:induction false} TotalsMeet(ns: map<string, nat>, ofs: map<string, nat>, floor: real)
    requires Meets(ns, ofs, floor)
    ensures AtLeast(Total(ns), Total(ofs), floor)
    decreases ns.Keys
  {
    if ns == map[] {
      assert ofs == map[];
    } else {
      var c :| c in ns;
      assert (ns - {c}).Keys == ns.Keys - {c} && (ofs - {c}).Keys == ofs.Keys - {c};
      TotalsMeet(ns - {c}, ofs - {c}, floor);
      TotalsStep(ns, ofs, floor, c);
    }
  }

  lemma WeighedTotal(r: Round, f: Figures)
    requires ValidRound(r) && Measures(r, f)
    ensures Total(Weighed(f.started, f.byClass)) == Lower(f.started, f.pool.obtained, f.pool.confirmed)
    ensures Total(Found(f.byClass)) == f.found
  {
    hide PoolOf, BucketsOf, FailuresOf, ClassifiedSet, Total;
    ClassesAddUp(r, f);
    assert f.started ==> Weighed(f.started, f.byClass) == ConfirmedOf(f.byClass);
    assert !f.started ==> Weighed(f.started, f.byClass) == ObtainedOf(f.byClass);
  }

  lemma ShareTimes(n: nat, of: nat)
    requires of > 0
    ensures Share(n, of) * (of as real) == n as real
  {}

  /** The pooled rate is the mean of the class rates weighted by what each class found: the weighted
      numerators and the weights add up to the pooled ones. */
  lemma PooledIsWeightedMean(r: Round, f: Figures)
    requires ValidRound(r) && Measures(r, f) && f.found > 0
    ensures RateOf(f).value * (Total(Found(f.byClass)) as real) == Total(Weighed(f.started, f.byClass)) as real
    ensures forall c :: c in f.byClass ==>
      Weighed(f.started, f.byClass)[c] as real == ClassRate(f.started, f.byClass[c]) * (f.byClass[c].found as real)
  {
    hide PoolOf, FailuresOf, ClassifiedSet, Total, BucketOf;
    WeighedTotal(r, f);
    ShareTimes(Lower(f.started, f.pool.obtained, f.pool.confirmed), f.found);
    forall c | c in f.byClass ensures
      Weighed(f.started, f.byClass)[c] as real == ClassRate(f.started, f.byClass[c]) * (f.byClass[c].found as real)
    {
      ShareTimes(Weighed(f.started, f.byClass)[c], f.byClass[c].found);
    }
  }

  lemma ClassesMeet(f: Figures, floor: real)
    requires forall c :: c in f.byClass ==> f.byClass[c].found > 0 && ClassRate(f.started, f.byClass[c]) >= floor
    ensures Meets(Weighed(f.started, f.byClass), Found(f.byClass), floor)
  {
    forall c | c in f.byClass
      ensures AtLeast(Weighed(f.started, f.byClass)[c], Found(f.byClass)[c], floor)
    {
      ShareAtLeast(Weighed(f.started, f.byClass)[c], f.byClass[c].found, floor);
    }
  }

  lemma ClassesMeetMeansPoolMeets(r: Round, f: Figures, floor: real)
    requires ValidRound(r) && Measures(r, f) && f.found > 0
    requires forall c :: c in f.byClass ==> ClassRate(f.started, f.byClass[c]) >= floor
    ensures RateOf(f).value >= floor
  {
    hide PoolOf, FailuresOf, ClassifiedSet, Total, BucketOf, Meets;
    ClassesMeet(f, floor);
    TotalsMeet(Weighed(f.started, f.byClass), Found(f.byClass), floor);
    WeighedTotal(r, f);
    ShareAtLeast(Lower(f.started, f.pool.obtained, f.pool.confirmed), f.found, floor);
  }

  /** With no declared class floors a round is admitted if and only if it found something and every
      class meets the project floor: the pooled test adds nothing. */
  lemma AdmittedExactlyWhen(r: Round, f: Figures, floor: real)
    requires ValidRound(r) && Measures(r, f)
    ensures Admitted(f, floor, map[]) <==>
      f.found > 0 && forall c :: c in f.byClass ==> ClassRate(f.started, f.byClass[c]) >= floor
  {
    if f.found > 0 && forall c :: c in f.byClass ==> ClassRate(f.started, f.byClass[c]) >= floor {
      ClassesMeetMeansPoolMeets(r, f, floor);
    }
  }

  /** Raising declared floors never admits more; no declaration lets the pooled rate under the
      project floor. */
  lemma FloorsOnlyTighten(f: Figures, floor: real, declared: map<string, real>, higher: map<string, real>)
    requires forall c :: c in f.byClass ==> f.byClass[c].found > 0
    requires forall c :: FloorOf(floor, declared, c) <= FloorOf(floor, higher, c)
    ensures Admitted(f, floor, higher) ==> Admitted(f, floor, declared) && RateOf(f).value >= floor
  {}
}
