/** What operator-supplied copies still do to the figures under `separate`: their acquisition rows are
    left out, but the verdicts on them are filed under the source ids of Claimstone's own copies. */
module AdmissibilitySupplies {
  import opened Seqs
  import opened Ledger
  import opened Sums
  import opened Admissibility
  import opened AdmissibilityLaws
  import opened AdmissibilityReport

  // ---------- the store without supplied copies ----------

  predicate IsOwn(row: Acquisition) { row.provenance != OPERATOR_SUPPLIED }

  /** The verdict was read from the bytes this row brought, under the row's source id. */
  predicate ReadFrom(d: Document, row: Acquisition) {
    row.key.Some? && d.sourceId == Some(Identifier(row.key.value, row)) && d.sha == row.sha
  }

  /** A verdict on bytes that only an operator supplied. */
  predicate JudgesSupplied(rows: seq<Acquisition>, d: Document) {
    && (exists i :: 0 <= i < |rows| && !IsOwn(rows[i]) && ReadFrom(d, rows[i]))
    && forall i :: 0 <= i < |rows| && IsOwn(rows[i]) ==> !ReadFrom(d, rows[i])
  }

  function Kept(rows: seq<Acquisition>): Document -> bool { d => !JudgesSupplied(rows, d) }

  /** The store as if no copy had been supplied: neither their rows nor the verdicts on them. */
  function Unsupplied(s: Store): Store {
    s.(acquisitions := Filter(IsOwn, s.acquisitions), documents := Filter(Kept(s.acquisitions), s.documents))
  }

  lemma {:induction false} ExcludingIsFiltering(rows: seq<Acquisition>, countSupplied: bool)
    ensures Collapsed(Filter(IsOwn, rows), Excluded(countSupplied)) == Collapsed(rows, {OPERATOR_SUPPLIED})
  {
    if rows != [] {
      var front, row := rows[..|rows| - 1], rows[|rows| - 1];
      ExcludingIsFiltering(front, countSupplied);
      assert rows == front + [row];
      FilterConcat(IsOwn, front, [row]);
      var own := Filter(IsOwn, front);
      if IsOwn(row) {
        assert Filter(IsOwn, rows) == own + [row];
        assert (own + [row])[..|own|] == own;
      } else {
        assert Filter(IsOwn, rows) == own + [] == own;
      }
    }
  }

  lemma {:induction false} LatestKept(rows: seq<Document>, keep: Document -> bool, id: string)
    ensures var all, kept := LatestBy(rows, (d: Document) => d.sourceId),
                             LatestBy(Filter(keep, rows), (d: Document) => d.sourceId);
      && (id !in all ==> id !in kept)
      && (id in all && keep(all[id]) ==> id in kept && kept[id] == all[id])
  {
    if rows != [] {
      var front, row := rows[..|rows| - 1], rows[|rows| - 1];
      LatestKept(front, keep, id);
      assert rows == front + [row];
      FilterConcat(keep, front, [row]);
      LatestSnoc(front, row, (d: Document) => d.sourceId);
      if keep(row) {
        LatestSnoc(Filter(keep, front), row, (d: Document) => d.sourceId);
        assert Filter(keep, rows) == Filter(keep, front) + [row];
      } else {
        assert Filter(keep, rows) == Filter(keep, front) + [] == Filter(keep, front);
      }
    }
  }

  /** Leaving supplied rows out is what `separate` does to acquisitions, whatever the policy then is;
      only the documents are another matter. */
  lemma UnsuppliedRound(s: Store, sel: Selection, countSupplied: bool)
    ensures RoundFor(Unsupplied(s), sel, countSupplied)
         == RoundFor(s, sel, false).(documents := DocumentsOf(Unsupplied(s)))
  {
    hide Collapsed, Filter, Selected, LatestBy;
    ExcludingIsFiltering(s.acquisitions, countSupplied);
    assert Selected(Unsupplied(s), sel) == Selected(s, sel) by { SelectedReadsCandidates(s, Unsupplied(s), sel); }
  }

  lemma SelectedReadsCandidates(a: Store, b: Store, sel: Selection)
    requires a.candidates == b.candidates
    ensures Selected(a, sel) == Selected(b, sel)
  {}

  // ---------- candidate by candidate ----------

  function OwnRow(s: Store, key: string): Option<Acquisition> {
    LastDecisive(s.acquisitions, {OPERATOR_SUPPLIED}, key)
  }

  /** The verdict now filed under the source id of the candidate's own copy is on a supplied copy. */
  predicate Overruled(s: Store, key: string) {
    var own := OwnRow(s, key);
    && own.Some? && own.value.acquired && Identifier(key, own.value) in DocumentsOf(s)
    && JudgesSupplied(s.acquisitions, DocumentsOf(s)[Identifier(key, own.value)])
  }

  /** The supplied copy was confirmed, the own one was not. */
  predicate Gains(s: Store, key: string) {
    Overruled(s, key) && Confirms(DocumentsOf(s), key, OwnRow(s, key))
    && !Confirms(DocumentsOf(Unsupplied(s)), key, OwnRow(s, key))
  }

  /** The other way round. */
  predicate Loses(s: Store, key: string) {
    Overruled(s, key) && !Confirms(DocumentsOf(s), key, OwnRow(s, key))
    && Confirms(DocumentsOf(Unsupplied(s)), key, OwnRow(s, key))
  }

  /** The own copy was never judged. */
  predicate Borrows(s: Store, key: string) {
    Overruled(s, key) && Identifier(key, OwnRow(s, key).value) !in DocumentsOf(Unsupplied(s))
  }

  /** Where the verdict on file is not on a supplied copy, both stores hold the same one. */
  lemma SameVerdictUnlessOverruled(s: Store, key: string)
    requires OwnRow(s, key).Some? && OwnRow(s, key).value.acquired
    ensures var id, all, own := Identifier(key, OwnRow(s, key).value), DocumentsOf(s), DocumentsOf(Unsupplied(s));
      && (id in own ==> id in all)
      && (!Overruled(s, key) && id in all ==> id in own && own[id] == all[id])
  {
    hide LatestBy, Filter, JudgesSupplied;
    LatestKept(s.documents, Kept(s.acquisitions), Identifier(key, OwnRow(s, key).value));
  }

  lemma ObtainedByOwnRow(s: Store, sel: Selection, key: string)
    ensures var r := RoundFor(s, sel, false);
      && (Obtained(r, key) <==> key in Selected(s, sel) && OwnRow(s, key).Some? && OwnRow(s, key).value.acquired)
      && (Obtained(r, key) ==> r.rows[key] == OwnRow(s, key).value)
  {
    hide Selected, LatestBy, Collapsed, LastDecisive;
    AcquiredExactlyWhen(s.acquisitions, {OPERATOR_SUPPLIED}, key);
    if OwnRow(s, key).Some? && OwnRow(s, key).value.acquired {
      SuccessIsShown(s.acquisitions, {OPERATOR_SUPPLIED}, key);
    }
  }

  /** Under `separate` a candidate's place differs from its place in the store without supplied copies
      exactly where a verdict on one stands in for the verdict on the candidate's own copy. What was
      obtained never differs. */
  lemma VerdictsBorrowedExactlyWhen(s: Store, sel: Selection, key: string)
    ensures var separate, own := RoundFor(s, sel, false), RoundFor(Unsupplied(s), sel, false);
      && separate.candidates == own.candidates && separate.rows == own.rows
      && ObtainedSet(separate) == ObtainedSet(own)
      && (key in ConfirmedSet(separate) - ConfirmedSet(own) <==> key in Selected(s, sel) && Gains(s, key))
      && (key in ConfirmedSet(own) - ConfirmedSet(separate) <==> key in Selected(s, sel) && Loses(s, key))
      && (key in AwaitingSet(own) - AwaitingSet(separate) <==> key in Selected(s, sel) && Borrows(s, key))
      && key !in AwaitingSet(separate) - AwaitingSet(own)
  {
    var separate, own := RoundFor(s, sel, false), RoundFor(Unsupplied(s), sel, false);
    UnsuppliedRound(s, sel, false);
    ObtainedByOwnRow(s, sel, key);
    if Obtained(separate, key) {
      SameVerdictUnlessOverruled(s, key);
    }
    assert separate.documents == DocumentsOf(s);
    hide RoundFor, DocumentsOf, Unsupplied, Selected, OwnRow, JudgesSupplied;
  }

  // ---------- the figures ----------

  function GainSet(s: Store, sel: Selection): set<string> { set k | k in Selected(s, sel) && Gains(s, k) }
  function LossSet(s: Store, sel: Selection): set<string> { set k | k in Selected(s, sel) && Loses(s, k) }
  function BorrowSet(s: Store, sel: Selection): set<string> { set k | k in Selected(s, sel) && Borrows(s, k) }

  /** Every verdict on file is on a supplied copy. The rate is then measured over confirmed copies,
      although no copy of Claimstone's own was judged. */
  predicate StartedBySupply(s: Store) { DocumentsOf(s) != map[] && DocumentsOf(Unsupplied(s)) == map[] }

  /** What the rate, its ceiling and admission are computed from. */
  predicate SameFigures(f: Figures, f': Figures) {
    f.found == f'.found && f.pool == f'.pool && f.byClass == f'.byClass && f.started == f'.started
  }

  lemma SetsApart(s: Store, sel: Selection)
    ensures var separate, own := RoundFor(s, sel, false), RoundFor(Unsupplied(s), sel, false);
      && separate.candidates == own.candidates && separate.rows == own.rows
      && ObtainedSet(separate) == ObtainedSet(own)
      && ConfirmedSet(separate) - ConfirmedSet(own) == GainSet(s, sel)
      && ConfirmedSet(own) - ConfirmedSet(separate) == LossSet(s, sel)
      && AwaitingSet(own) - AwaitingSet(separate) == BorrowSet(s, sel)
      && AwaitingSet(separate) <= AwaitingSet(own)
  {
    var separate, own := RoundFor(s, sel, false), RoundFor(Unsupplied(s), sel, false);
    hide RoundFor, Unsupplied, Selected, Gains, Loses, Borrows, ObtainedSet, ConfirmedSet, AwaitingSet;
    forall k
      ensures k in ConfirmedSet(separate) - ConfirmedSet(own) <==> k in GainSet(s, sel)
      ensures k in ConfirmedSet(own) - ConfirmedSet(separate) <==> k in LossSet(s, sel)
      ensures k in AwaitingSet(own) - AwaitingSet(separate) <==> k in BorrowSet(s, sel)
      ensures k in AwaitingSet(separate) ==> k in AwaitingSet(own)
    {
      VerdictsBorrowedExactlyWhen(s, sel, k);
    }
    VerdictsBorrowedExactlyWhen(s, sel, "");
  }

  lemma ClassApart(a: set<string>, b: set<string>, of: map<string, string>, c: string)
    ensures |InClass(a, of, c)| - |InClass(b, of, c)| == |InClass(a - b, of, c)| - |InClass(b - a, of, c)|
  {
    SizesApart(InClass(a, of, c), InClass(b, of, c));
    assert InClass(a, of, c) - InClass(b, of, c) == InClass(a - b, of, c);
    assert InClass(b, of, c) - InClass(a, of, c) == InClass(b - a, of, c);
  }

  lemma BucketIs(r: Round, c: string)
    requires ValidRound(r)
    ensures BucketOf(r, r.candidates.Keys, c) ==
      Bucket(|InClass(r.candidates.Keys, ClassOf(r), c)|, |InClass(ObtainedSet(r), ClassOf(r), c)|,
             |InClass(ConfirmedSet(r), ClassOf(r), c)|, |InClass(AwaitingSet(r), ClassOf(r), c)|)
  {
    Within(ObtainedSet(r), r.candidates.Keys);
    Within(ConfirmedSet(r), r.candidates.Keys);
    Within(AwaitingSet(r), r.candidates.Keys);
  }

  /** One class's bucket is the same in both stores exactly when gains balance losses in it and nothing
      in it borrows a verdict. */
  lemma BucketSameExactlyWhen(s: Store, sel: Selection, c: string)
    ensures var separate, own := RoundFor(s, sel, false), RoundFor(Unsupplied(s), sel, false);
      var of := ClassOf(separate);
      BucketOf(separate, separate.candidates.Keys, c) == BucketOf(own, own.candidates.Keys, c) <==>
        |InClass(GainSet(s, sel), of, c)| == |InClass(LossSet(s, sel), of, c)|
        && InClass(BorrowSet(s, sel), of, c) == {}
  {
    var separate, own := RoundFor(s, sel, false), RoundFor(Unsupplied(s), sel, false);
    hide RoundFor, Unsupplied, ObtainedSet, ConfirmedSet, AwaitingSet, GainSet, LossSet, BorrowSet, BucketOf, ClassOf;
    SetsApart(s, sel);
    BucketIs(separate, c);
    BucketIs(own, c);
    var of := ClassOf(separate);
    assert ClassOf(own) == of by { ClassReadsCandidates(separate, own); }
    ClassApart(ConfirmedSet(separate), ConfirmedSet(own), of, c);
    ClassApart(AwaitingSet(own), AwaitingSet(separate), of, c);
    assert AwaitingSet(separate) - AwaitingSet(own) == {} && |InClass({}, of, c)| == 0 by {
      assert InClass({}, of, c) == {};
    }
    hide InClass;
  }

  lemma ClassReadsCandidates(a: Round, b: Round)
    requires a.candidates == b.candidates
    ensures ClassOf(a) == ClassOf(b)
  {}

  ghost predicate Balanced(s: Store, sel: Selection, of: map<string, string>) {
    forall c :: |InClass(GainSet(s, sel), of, c)| == |InClass(LossSet(s, sel), of, c)|
  }

  lemma StartsExactlyWhen(s: Store)
    ensures (DocumentsOf(s) != map[]) == (DocumentsOf(Unsupplied(s)) != map[]) <==> !StartedBySupply(s)
  {
    if DocumentsOf(s) == map[] && DocumentsOf(Unsupplied(s)) != map[] {
      var id :| id in DocumentsOf(Unsupplied(s));
      hide LatestBy, Filter;
      LatestKept(s.documents, Kept(s.acquisitions), id);
    }
  }

  lemma ClassesOfSubset(part: set<string>, all: set<string>, of: map<string, string>, c: string)
    requires part <= all && InClass(all, of, c) == {}
    ensures InClass(part, of, c) == {}
  {
    assert InClass(part, of, c) <= InClass(all, of, c);
  }

  lemma ClassAgrees(s: Store, sel: Selection, f: Figures, f': Figures, c: string)
    requires Measures(RoundFor(s, sel, false), f) && Measures(RoundFor(Unsupplied(s), sel, false), f')
    ensures var of := ClassOf(RoundFor(s, sel, false));
      && (c in f.byClass <==> c in f'.byClass)
      && ((c in f.byClass ==> f.byClass[c] == f'.byClass[c]) <==>
            |InClass(GainSet(s, sel), of, c)| == |InClass(LossSet(s, sel), of, c)|
            && InClass(BorrowSet(s, sel), of, c) == {})
  {
    var separate, own := RoundFor(s, sel, false), RoundFor(Unsupplied(s), sel, false);
    assert separate.candidates == own.candidates by { UnsuppliedRound(s, sel, false); }
    ClassReadsCandidates(separate, own);
    hide RoundFor, Unsupplied, PoolOf, FailuresOf, BucketOf, ClassOf, InClass, GainSet, LossSet, BorrowSet;
    InBuckets(separate, f, c);
    InBuckets(own, f', c);
    if c in f.byClass {
      BucketSameExactlyWhen(s, sel, c);
    } else {
      NothingElsewhere(s, sel, c);
    }
  }

  predicate Even(gains: set<string>, losses: set<string>, borrows: set<string>, of: map<string, string>, c: string) {
    |InClass(gains, of, c)| == |InClass(losses, of, c)| && InClass(borrows, of, c) == {}
  }

  lemma MapsAgree(a: map<string, Bucket>, b: map<string, Bucket>, gains: set<string>, losses: set<string>,
                  borrows: set<string>, of: map<string, string>)
    requires forall c :: c in a <==> c in b
    requires forall c :: (c in a ==> a[c] == b[c]) <==> Even(gains, losses, borrows, of, c)
    ensures a == b <==> forall c :: Even(gains, losses, borrows, of, c)
  {
    hide Even;
    if forall c :: Even(gains, losses, borrows, of, c) {
      assert forall c :: c in a ==> a[c] == b[c];
    }
  }

  lemma EvenExactlyWhen(gains: set<string>, losses: set<string>, borrows: set<string>, of: map<string, string>)
    requires forall k :: k in borrows ==> k in of
    ensures (forall c :: Even(gains, losses, borrows, of, c)) <==>
      borrows == {} && forall c :: |InClass(gains, of, c)| == |InClass(losses, of, c)|
  {
    NoneInAnyClass(borrows, of);
    hide InClass;
    if forall c :: Even(gains, losses, borrows, of, c) {
      forall c ensures InClass(borrows, of, c) == {} && |InClass(gains, of, c)| == |InClass(losses, of, c)| {
        assert Even(gains, losses, borrows, of, c);
      }
    }
  }

  lemma BucketsAgree(s: Store, sel: Selection, f: Figures, f': Figures)
    requires Measures(RoundFor(s, sel, false), f) && Measures(RoundFor(Unsupplied(s), sel, false), f')
    ensures var of := ClassOf(RoundFor(s, sel, false));
      f.byClass == f'.byClass <==> Balanced(s, sel, of) && BorrowSet(s, sel) == {}
  {
    var of := ClassOf(RoundFor(s, sel, false));
    var gains, losses, borrows := GainSet(s, sel), LossSet(s, sel), BorrowSet(s, sel);
    assert forall k :: k in borrows ==> k in of by { OfCoversSelected(s, sel); }
    hide Measures, RoundFor, Unsupplied, ClassOf, InClass, GainSet, LossSet, BorrowSet;
    forall c
      ensures c in f.byClass <==> c in f'.byClass
      ensures (c in f.byClass ==> f.byClass[c] == f'.byClass[c]) <==> Even(gains, losses, borrows, of, c)
    {
      ClassAgrees(s, sel, f, f', c);
    }
    hide Even;
    MapsAgree(f.byClass, f'.byClass, gains, losses, borrows, of);
    EvenExactlyWhen(gains, losses, borrows, of);
  }

  lemma OfCoversSelected(s: Store, sel: Selection)
    ensures ClassOf(RoundFor(s, sel, false)).Keys == Selected(s, sel).Keys == RoundFor(s, sel, false).candidates.Keys
  {}

  lemma NothingElsewhere(s: Store, sel: Selection, c: string)
    requires var r := RoundFor(s, sel, false); InClass(r.candidates.Keys, ClassOf(r), c) == {}
    ensures var of := ClassOf(RoundFor(s, sel, false));
      InClass(GainSet(s, sel), of, c) == {} && InClass(LossSet(s, sel), of, c) == {}
      && InClass(BorrowSet(s, sel), of, c) == {}
  {
    var all, of := RoundFor(s, sel, false).candidates.Keys, ClassOf(RoundFor(s, sel, false));
    OfCoversSelected(s, sel);
    hide RoundFor, ClassOf, InClass, Gains, Loses, Borrows;
    ClassesOfSubset(GainSet(s, sel), all, of, c);
    ClassesOfSubset(LossSet(s, sel), all, of, c);
    ClassesOfSubset(BorrowSet(s, sel), all, of, c);
  }

  lemma NoneInAnyClass(part: set<string>, of: map<string, string>)
    requires forall k :: k in part ==> k in of
    ensures (forall c :: InClass(part, of, c) == {}) <==> part == {}
  {
    if k :| k in part {
      assert k in InClass(part, of, of[k]);
    }
  }

  /** Under `separate` the figures are those of the store in which no copy was ever supplied, nor judged,
      if and only if no verdict is borrowed, in every class as many confirmations are gained as lost, and
      some copy of Claimstone's own was judged where any was. */
  lemma FiguresAreOwnExactlyWhen(s: Store, sel: Selection, f: Figures, f': Figures)
    requires Measures(RoundFor(s, sel, false), f) && Measures(RoundFor(Unsupplied(s), sel, false), f')
    ensures SameFigures(f, f') <==>
      && BorrowSet(s, sel) == {} && Balanced(s, sel, ClassOf(RoundFor(s, sel, false)))
      && !StartedBySupply(s)
  {
    var separate, own := RoundFor(s, sel, false), RoundFor(Unsupplied(s), sel, false);
    SetsApart(s, sel);
    BucketsAgree(s, sel, f, f');
    StartsExactlyWhen(s);
    DocumentsRead(s, sel);
    hide RoundFor, Unsupplied, PoolOf, FailuresOf, BucketOf, ClassOf, BucketsOf, BorrowSet, Balanced;
    if f.byClass == f'.byClass {
      SamePool(separate, own, f, f');
    }
  }

  lemma DocumentsRead(s: Store, sel: Selection)
    ensures RoundFor(s, sel, false).documents == DocumentsOf(s)
    ensures RoundFor(Unsupplied(s), sel, false).documents == DocumentsOf(Unsupplied(s))
  {}

  lemma SamePool(a: Round, b: Round, f: Figures, f': Figures)
    requires ValidRound(a) && ValidRound(b) && Measures(a, f) && Measures(b, f')
    requires a.candidates == b.candidates && a.rows == b.rows && f.byClass == f'.byClass
    ensures f.pool == f'.pool
  {
    PoolSizes(a);
    PoolSizes(b);
    hide PoolOf, FailuresOf, BucketsOf, ObtainedSet, ConfirmedSet, AwaitingSet, RefutedSet;
    ClassesAddUp(a, f);
    ClassesAddUp(b, f');
    RateIsBounded(a, f);
    RateIsBounded(b, f');
  }
}
