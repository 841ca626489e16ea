/** What a report says, in terms of the ledgers' rows. */
module AdmissibilityReport {
  import opened Seqs
  import opened Ledger
  import opened Sums
  import opened Admissibility
  import opened AdmissibilityLaws

  // ---------- the population ----------

  /** The i-th candidate row is the last one under this key. */
  ghost predicate LastCandidate(s: Store, key: string, i: int) {
    0 <= i < |s.candidates| && s.candidates[i].key == Some(key)
    && forall k :: i < k < |s.candidates| ==> s.candidates[k].key != Some(key)
  }

  ghost predicate Belongs(sel: Selection, c: Candidate) {
    (sel.round.None? || c.round == sel.round.value) && (sel.manifestOnly ==> c.sourceId != "")
  }

  /** The denominator: a candidate is counted exactly when its last row is of the round asked for and, for
      the manifest, names its source. It is counted as that row has it. */
  lemma SelectedExactlyWhen(s: Store, sel: Selection, key: string)
    ensures key in Selected(s, sel) <==> exists i :: LastCandidate(s, key, i) && Belongs(sel, s.candidates[i])
    ensures key in Selected(s, sel) ==> exists i :: LastCandidate(s, key, i) && Selected(s, sel)[key] == s.candidates[i]
  {
    var all := LatestBy(s.candidates, (c: Candidate) => c.key);
    var i := LatestIsLast(s.candidates, (c: Candidate) => c.key, key);
    hide LatestBy;
    if i >= 0 {
      assert LastCandidate(s, key, i);
      assert forall k :: LastCandidate(s, key, k) ==> k == i;
    } else {
      assert forall k :: !LastCandidate(s, key, k);
    }
  }

  // ---------- the row kept for a candidate ----------

  ghost predicate CountsFor(row: Acquisition, excluded: set<string>, key: string) {
    row.key == Some(key) && row.provenance !in excluded
  }

  ghost predicate LastCounted(rows: seq<Acquisition>, excluded: set<string>, key: string, i: int) {
    0 <= i < |rows| && CountsFor(rows[i], excluded, key)
    && forall k :: i < k < |rows| ==> !CountsFor(rows[k], excluded, key)
  }

  lemma LastCountedSnoc(rows: seq<Acquisition>, row: Acquisition, excluded: set<string>, key: string, i: int)
    ensures LastCounted(rows + [row], excluded, key, i) <==>
      if CountsFor(row, excluded, key) then i == |rows| else LastCounted(rows, excluded, key, i)
  {
    var more := rows + [row];
    assert forall k :: 0 <= k < |rows| ==> more[k] == rows[k];
    assert more[|rows|] == row;
    if CountsFor(row, excluded, key) && 0 <= i < |rows| {
      assert CountsFor(more[|rows|], excluded, key);
    }
  }

  /** A candidate has a row exactly when some row counts for it; the row is the last success or re-gate
      if that is a success, and otherwise the last row there is. */
  lemma {:induction false} CollapsedExactlyWhen(rows: seq<Acquisition>, excluded: set<string>, key: string)
    ensures key in Collapsed(rows, excluded) <==> exists i :: 0 <= i < |rows| && CountsFor(rows[i], excluded, key)
    ensures key in Collapsed(rows, excluded) && !Collapsed(rows, excluded)[key].acquired ==>
      exists i :: LastCounted(rows, excluded, key, i) && Collapsed(rows, excluded)[key] == rows[i]
    ensures key in Collapsed(rows, excluded) && Collapsed(rows, excluded)[key].acquired ==>
      LastDecisive(rows, excluded, key) == Some(Collapsed(rows, excluded)[key])
  {
    AcquiredExactlyWhen(rows, excluded, key);
    var last := LastDecisive(rows, excluded, key);
    if last.Some? && last.value.acquired { SuccessIsShown(rows, excluded, key); }
    hide LastDecisive;
    if rows != [] {
      var front, row := rows[..|rows| - 1], rows[|rows| - 1];
      CollapsedExactlyWhen(front, excluded, key);
      assert rows == front + [row];
      if i :| 0 <= i < |front| && CountsFor(front[i], excluded, key) {
        assert CountsFor(rows[i], excluded, key);
      }
      if CountsFor(row, excluded, key) {
        assert CountsFor(rows[|front|], excluded, key);
      }
      forall i ensures LastCounted(rows, excluded, key, i) <==>
          if CountsFor(row, excluded, key) then i == |front| else LastCounted(front, excluded, key, i) {
        LastCountedSnoc(front, row, excluded, key, i);
      }
      assert rows[|front|] == row;
    }
  }

  // ---------- what blocks ----------

  ghost predicate LastQuery(s: Store, i: int) {
    0 <= i < |s.queries| && s.queries[i].id.Some?
    && forall k :: i < k < |s.queries| ==> s.queries[k].id != s.queries[i].id
  }

  /** Under this policy some row counts for the candidate. */
  ghost predicate Attempted(s: Store, countSupplied: bool, key: string) {
    exists i :: 0 <= i < |s.acquisitions| && CountsFor(s.acquisitions[i], Excluded(countSupplied), key)
  }

  ghost predicate HasCopy(s: Store, countSupplied: bool, key: string) {
    var last := LastDecisive(s.acquisitions, Excluded(countSupplied), key);
    last.Some? && last.value.acquired
  }

  /** A verdict is on file for the copy counted for the candidate. */
  ghost predicate IsJudged(s: Store, countSupplied: bool, key: string) {
    HasCopy(s, countSupplied, key) &&
    var copy := LastDecisive(s.acquisitions, Excluded(countSupplied), key).value;
    exists i :: 0 <= i < |s.documents|
      && s.documents[i].sourceId == Some(if copy.sourceId != "" then copy.sourceId else key)
  }

  /** What each reason says of the ledgers. */
  ghost predicate Stands(s: Store, sel: Selection, countSupplied: bool, reason: Blocking) {
    match reason
    case AwaitingDiscovery =>
      !sel.manifestOnly && exists i :: LastQuery(s, i) && !s.queries[i].ok
                                       && (sel.round.None? || s.queries[i].round == sel.round.value)
    case AwaitingClassification => exists key :: key in Selected(s, sel) && Selected(s, sel)[key].sourceClass == ""
    case AwaitingAcquire => exists key :: key in Selected(s, sel) && !Attempted(s, countSupplied, key)
    case NormalizeNotStarted => forall i :: 0 <= i < |s.documents| ==> s.documents[i].sourceId.None?
    case AwaitingNormalize =>
      (exists i :: 0 <= i < |s.documents| && s.documents[i].sourceId.Some?)
      && exists key :: key in Selected(s, sel) && HasCopy(s, countSupplied, key) && !IsJudged(s, countSupplied, key)
    case OrphanAcquisitions =>
      sel.round.None? && !sel.manifestOnly
      && exists key :: Attempted(s, true, key) && key !in Selected(s, sel)
    case LedgerRepairs => s.repaired
  }

  lemma {:induction false} InLatest<R>(rows: seq<R>, key: R -> Option<string>, k: string)
    ensures k in LatestBy(rows, key) <==> exists i :: 0 <= i < |rows| && key(rows[i]) == Some(k)
  {
    var i := LatestIsLast(rows, key, k);
    hide LatestBy;
  }

  lemma FailedExactlyWhen(s: Store, sel: Selection)
    ensures FailedQueries(s, sel) != {} <==> Stands(s, sel, true, AwaitingDiscovery)
  {
    hide LatestBy;
    var failed, latest := FailedQueries(s, sel), LatestBy(s.queries, (q: Query) => q.id);
    if id :| id in failed {
      var i := LatestIsLast(s.queries, (q: Query) => q.id, id);
      assert LastQuery(s, i) && !s.queries[i].ok;
    }
    if Stands(s, sel, true, AwaitingDiscovery) {
      var i :| LastQuery(s, i) && !s.queries[i].ok && (sel.round.None? || s.queries[i].round == sel.round.value);
      var id := s.queries[i].id.value;
      var k := LatestIsLast(s.queries, (q: Query) => q.id, id);
      assert k == i;
      assert id in failed;
    }
  }

  lemma SmallerExactlyWhen(part: set<string>, all: set<string>)
    requires part <= all
    ensures |part| < |all| <==> exists k :: k in all && k !in part
  {
    SizesApart(all, part);
    assert part - all == {};
    if k :| k in all && k !in part {
      assert k in all - part;
    } else {
      assert all - part == {};
    }
  }

  lemma AttemptedExactlyWhen(s: Store, sel: Selection, countSupplied: bool)
    ensures forall key :: key in RoundFor(s, sel, countSupplied).rows <==>
      key in Selected(s, sel) && Attempted(s, countSupplied, key)
  {
    hide Collapsed, Selected, LatestBy;
    forall key ensures key in RoundFor(s, sel, countSupplied).rows <==>
        key in Selected(s, sel) && Attempted(s, countSupplied, key) {
      CollapsedExactlyWhen(s.acquisitions, Excluded(countSupplied), key);
    }
  }

  lemma AwaitingExactlyWhen(s: Store, sel: Selection, countSupplied: bool)
    ensures forall key :: key in AwaitingSet(RoundFor(s, sel, countSupplied)) <==>
      key in Selected(s, sel) && HasCopy(s, countSupplied, key) && !IsJudged(s, countSupplied, key)
  {
    var r := RoundFor(s, sel, countSupplied);
    forall key ensures key in AwaitingSet(r) <==>
        key in Selected(s, sel) && HasCopy(s, countSupplied, key) && !IsJudged(s, countSupplied, key) {
      JudgedExactlyWhen(s, sel, countSupplied, key);
    }
  }

  lemma JudgedExactlyWhen(s: Store, sel: Selection, countSupplied: bool, key: string)
    ensures var r := RoundFor(s, sel, countSupplied);
      && (Obtained(r, key) <==> key in Selected(s, sel) && HasCopy(s, countSupplied, key))
      && (Obtained(r, key) ==> (Judged(r, key) <==> IsJudged(s, countSupplied, key)))
  {
    var excluded := Excluded(countSupplied);
    AcquiredExactlyWhen(s.acquisitions, excluded, key);
    hide Collapsed, Selected, LatestBy, LastDecisive, Excluded;
    if HasCopy(s, countSupplied, key) {
      SuccessIsShown(s.acquisitions, excluded, key);
      var copy := LastDecisive(s.acquisitions, excluded, key).value;
      InLatest(s.documents, (d: Document) => d.sourceId, Identifier(key, copy));
    }
  }

  lemma StartedExactlyWhen(s: Store, sel: Selection, countSupplied: bool)
    ensures RoundFor(s, sel, countSupplied).documents != map[] <==>
      exists i :: 0 <= i < |s.documents| && s.documents[i].sourceId.Some?
  {
    var documents := RoundFor(s, sel, countSupplied).documents;
    hide LatestBy, Collapsed, Selected;
    if id :| id in documents {
      InLatest(s.documents, (d: Document) => d.sourceId, id);
    }
    if i :| 0 <= i < |s.documents| && s.documents[i].sourceId.Some? {
      InLatest(s.documents, (d: Document) => d.sourceId, s.documents[i].sourceId.value);
    }
  }

  lemma OrphansExactlyWhen(s: Store, sel: Selection)
    ensures OrphansOf(s, sel) != {} <==> Stands(s, sel, true, OrphanAcquisitions)
    ensures forall key :: key in OrphansOf(s, sel) <==>
      sel.round.None? && !sel.manifestOnly && Attempted(s, true, key) && key !in Selected(s, sel)
  {
    hide Collapsed, Selected;
    forall key ensures key in Collapsed(s.acquisitions, {}) <==> Attempted(s, true, key) {
      CollapsedExactlyWhen(s.acquisitions, {}, key);
    }
    hide Attempted;
    assert forall key :: key in OrphansOf(s, sel) ==> Attempted(s, true, key) && key !in Selected(s, sel);
    if Stands(s, sel, true, OrphanAcquisitions) {
      var key :| Attempted(s, true, key) && key !in Selected(s, sel);
      assert key in OrphansOf(s, sel);
    } else if key :| key in OrphansOf(s, sel) {
      assert false;
    }
  }

  /** A reason is listed exactly when it stands in the ledgers; so a round is final exactly when none
      does: every last query of the round succeeded, every candidate is classified and attempted, every
      copy is judged, nothing is orphaned and no ledger was repaired. */
  lemma BlocksExactlyWhen(s: Store, sel: Selection, countSupplied: bool, rep: Report, reason: Blocking)
    requires IsReport(s, sel, countSupplied, rep)
    ensures reason in rep.blocking <==> Stands(s, sel, countSupplied, reason)
  {
    var r := RoundFor(s, sel, countSupplied);
    PoolSizes(r);
    RoundReads(s, sel, countSupplied);
    StartedExactlyWhen(s, sel, countSupplied);
    hide BucketsOf, FailuresOf, RoundFor, Selected, FailedQueries, OrphansOf, PoolOf, HasCopy, IsJudged, Attempted;
    match reason
    case AwaitingDiscovery => FailedExactlyWhen(s, sel);
    case AwaitingClassification => SmallerExactlyWhen(ClassifiedSet(r), r.candidates.Keys);
    case AwaitingAcquire =>
      AttemptedExactlyWhen(s, sel, countSupplied);
      SmallerExactlyWhen(r.rows.Keys, r.candidates.Keys);
    case AwaitingNormalize =>
      AwaitingExactlyWhen(s, sel, countSupplied);
      SmallerExactlyWhen({}, AwaitingSet(r));
    case OrphanAcquisitions => OrphansExactlyWhen(s, sel);
    case _ =>
  }

  lemma RoundReads(s: Store, sel: Selection, countSupplied: bool)
    ensures RoundFor(s, sel, countSupplied).candidates == Selected(s, sel)
    ensures RoundFor(s, sel, countSupplied).rows.Keys <= Selected(s, sel).Keys
  {}

  /** The other lines name exactly what they say: orphans; copies the open-web locator found; and, where
      supplied copies do not count, the candidates that only such a copy obtains, by its source. */
  lemma LinesName(s: Store, sel: Selection, countSupplied: bool, rep: Report, key: string)
    requires IsReport(s, sel, countSupplied, rep)
    ensures key in rep.orphans <==>
      sel.round.None? && !sel.manifestOnly && Attempted(s, true, key) && key !in Selected(s, sel)
    ensures key in rep.located <==>
      key in Selected(s, sel) && HasCopy(s, countSupplied, key)
      && LastDecisive(s.acquisitions, Excluded(countSupplied), key).value.provenance == "web_locator"
    ensures key in rep.supplied <==>
      !countSupplied && key in Selected(s, sel) && HasCopy(s, true, key) && !HasCopy(s, false, key)
    ensures key in rep.supplied ==>
      var copy := LastDecisive(s.acquisitions, {}, key).value;
      rep.supplied[key] == if copy.sourceId != "" then copy.sourceId else key
  {
    OrphansExactlyWhen(s, sel);
    JudgedExactlyWhen(s, sel, countSupplied, key);
    JudgedExactlyWhen(s, sel, false, key);
    JudgedExactlyWhen(s, sel, true, key);
    SuppliedNames(s, sel, key);
    var r := RoundFor(s, sel, countSupplied);
    if Obtained(r, key) { CollapsedExactlyWhen(s.acquisitions, Excluded(countSupplied), key); }
    hide Measures, OrphansOf, Attempted, LastDecisive, Selected, FailedQueries, Collapsed;
  }

  lemma SuppliedNames(s: Store, sel: Selection, key: string)
    ensures key in SuppliedOnly(s, sel, false) <==>
      Obtained(RoundFor(s, sel, true), key) && !Obtained(RoundFor(s, sel, false), key)
    ensures key in SuppliedOnly(s, sel, false) ==>
      LastDecisive(s.acquisitions, {}, key).Some?
      && SuppliedOnly(s, sel, false)[key] == Identifier(key, LastDecisive(s.acquisitions, {}, key).value)
    ensures SuppliedOnly(s, sel, true) == map[]
  {
    SuppliedLineIsTheDifference(s, sel);
    CollapsedExactlyWhen(s.acquisitions, {}, key);
    assert key in SuppliedOnly(s, sel, false).Keys <==> key in SuppliedOnly(s, sel, false);
    hide Collapsed, LastDecisive, Selected;
  }

  // ---------- class by class, failure by failure ----------

  /** Candidates of a class; those without one are counted together. */
  ghost predicate OfClass(c: Candidate, class_: string) {
    if c.sourceClass == "" then class_ == "UNCLASSIFIED" else class_ == c.sourceClass
  }

  /** What a candidate without a copy is counted under: its row's failure, if it has one. */
  ghost predicate FailsAs(r: Round, key: string, failure: string) {
    if key in r.rows && r.rows[key].failure != "" then failure == r.rows[key].failure else failure == "NOT_ATTEMPTED"
  }

  ghost function Of(r: Round, keys: set<string>, class_: string): set<string> {
    set k | k in keys && k in r.candidates && OfClass(r.candidates[k], class_)
  }

  /** Each class's figures are the numbers of its own candidates, and each failure's of those that failed
      so. */
  lemma EachClassCounts(r: Round, f: Figures, name: string)
    requires ValidRound(r) && Measures(r, f)
    ensures name in f.byClass <==> Of(r, r.candidates.Keys, name) != {}
    ensures name in f.byClass ==>
      f.byClass[name] == Bucket(|Of(r, r.candidates.Keys, name)|, |Of(r, ObtainedSet(r), name)|,
                                |Of(r, ConfirmedSet(r), name)|, |Of(r, AwaitingSet(r), name)|)
    ensures name in f.failures ==>
      f.failures[name] == |set k | k in r.candidates && !Obtained(r, k) && FailsAs(r, k, name)|
  {
    hide PoolOf;
    ClassIs(r, r.candidates.Keys, name);
    ClassIs(r, ObtainedSet(r) * r.candidates.Keys, name);
    ClassIs(r, ConfirmedSet(r) * r.candidates.Keys, name);
    ClassIs(r, AwaitingSet(r) * r.candidates.Keys, name);
    Within(ObtainedSet(r), r.candidates.Keys);
    Within(ConfirmedSet(r), r.candidates.Keys);
    Within(AwaitingSet(r), r.candidates.Keys);
    FailureIs(r, name);
    InBuckets(r, f, name);
  }

  lemma ClassIs(r: Round, keys: set<string>, name: string)
    ensures InClass(keys, ClassOf(r), name) == Of(r, keys, name)
  {}

  lemma FailureIs(r: Round, name: string)
    ensures InClass(FailedSet(r) * r.candidates.Keys, FailureOf(r), name)
         == set k | k in r.candidates && !Obtained(r, k) && FailsAs(r, k, name)
  {}

  lemma InBuckets(r: Round, f: Figures, name: string)
    requires ValidRound(r) && Measures(r, f)
    ensures name in f.byClass <==> InClass(r.candidates.Keys, ClassOf(r), name) != {}
  {
    hide PoolOf, FailuresOf;
    if name in f.byClass {
      assert f.byClass[name] == BucketOf(r, r.candidates.Keys, name);
    }
    if k :| k in InClass(r.candidates.Keys, ClassOf(r), name) {
      assert ClassName(r.candidates[k]) == name;
    }
  }
}
