/** Runs of acquiring, supplying and normalizing: what verdicts on supplied copies can do to the figures
    under `separate`. `claimstone/intake.py` and `claimstone/normalize.py`, as far as they write the two
    ledgers. */
module AdmissibilitySupplyRuns {
  import opened Seqs
  import opened Ledger
  import opened Admissibility
  import opened AdmissibilityLaws
  import opened AdmissibilitySupplies

  /** Acquiring, supplying and normalizing, one row at a time. */
  datatype Step = Acquire(row: Acquisition) | Supply(row: Acquisition) | Normalize(key: string, confirmed: bool)

  /** A supplied copy is not needed while the one held is confirmed or still to be judged. */
  predicate HoldsCopy(s: Store, key: string) {
    var held := Collapsed(s.acquisitions, {});
    key in held && held[key].acquired
    && var id := Identifier(key, held[key]); id in DocumentsOf(s) ==> DocumentsOf(s)[id].confirmed
  }

  /** A supply for this candidate that passes every check. */
  predicate Accepted(s: Store, row: Acquisition) {
    var candidates := LatestBy(s.candidates, (c: Candidate) => c.key);
    && row.key.Some? && row.key.value in candidates && row.sourceId == candidates[row.key.value].sourceId
    && row.acquired && !row.regated && !IsOwn(row)
    && (forall i :: 0 <= i < |s.acquisitions| ==> s.acquisitions[i].sha != row.sha)
    && !HoldsCopy(s, row.key.value)
  }

  /** `Normalize` judges whatever copy is held, supplied or not, once per copy. */
  function After(s: Store, step: Step): Store {
    match step
    case Acquire(row) => if IsOwn(row) then s.(acquisitions := s.acquisitions + [row]) else s
    case Supply(row) => if Accepted(s, row) then s.(acquisitions := s.acquisitions + [row]) else s
    case Normalize(key, confirmed) =>
      var held := Collapsed(s.acquisitions, {});
      if key !in held || !held[key].acquired then s
      else
        var id := Identifier(key, held[key]);
        if id in DocumentsOf(s) && DocumentsOf(s)[id].sha == held[key].sha then s
        else s.(documents := s.documents + [Document(Some(id), confirmed, held[key].sha)])
  }

  function AfterAll(s: Store, steps: seq<Step>): Store {
    if steps == [] then s else After(AfterAll(s, steps[..|steps| - 1]), steps[|steps| - 1])
  }

  /** A candidate and a source id name each other. */
  ghost predicate OneSource(rows: seq<Acquisition>) {
    forall i, j :: 0 <= i < |rows| && 0 <= j < |rows| && rows[i].key.Some? && rows[j].key.Some? ==>
      (rows[i].key == rows[j].key <==>
         Identifier(rows[i].key.value, rows[i]) == Identifier(rows[j].key.value, rows[j]))
  }

  predicate NoneRegated(rows: seq<Acquisition>) { forall i :: 0 <= i < |rows| ==> !rows[i].regated }

  /** The verdict on file for this source, if any, is not a confirmation. */
  predicate NoneConfirmed(s: Store, id: string) { id in DocumentsOf(s) ==> !DocumentsOf(s)[id].confirmed }

  /** No copy is supplied over a confirmation. */
  ghost predicate SuppliesFillGaps(s: Store, steps: seq<Step>) {
    steps == [] ||
    var front, step := steps[..|steps| - 1], steps[|steps| - 1];
    && SuppliesFillGaps(s, front)
    && (step.Supply? && Accepted(AfterAll(s, front), step.row) ==>
          NoneConfirmed(AfterAll(s, front), Identifier(step.row.key.value, step.row)))
  }

  ghost predicate Files(s: Store, i: int, id: string, confirmed: bool) {
    0 <= i < |s.documents| && s.documents[i].sourceId == Some(id) && s.documents[i].confirmed == confirmed
  }

  predicate OnSupplied(s: Store, i: nat)
    requires i < |s.documents|
  {
    JudgesSupplied(s.acquisitions, s.documents[i])
  }

  /** After row `i` and before row `n`, an own copy of this source was refuted. */
  ghost predicate Answered(s: Store, id: string, i: int, n: int) {
    exists m :: i < m < n && Files(s, m, id, false) && !OnSupplied(s, m)
  }

  /** Between a confirmation and the refutation of a supplied copy, an own copy was refuted. */
  ghost predicate RefutationsAnswered(s: Store) {
    forall id, i, j :: Files(s, i, id, true) && Files(s, j, id, false) && i < j && OnSupplied(s, j) ==>
      Answered(s, id, i, j)
  }

  /** Every verdict is on some success's bytes. */
  ghost predicate Traced(s: Store) {
    forall i :: 0 <= i < |s.documents| ==> BroughtBySome(s.acquisitions, s.documents[i])
  }

  ghost predicate BroughtBySome(rows: seq<Acquisition>, d: Document) {
    exists r :: 0 <= r < |rows| && rows[r].acquired && ReadFrom(d, rows[r])
  }

  ghost predicate AllAnswered(s: Store, id: string) {
    forall i :: Files(s, i, id, true) ==> Answered(s, id, i, |s.documents|)
  }

  predicate IsJudged(s: Store, key: string, row: Acquisition) {
    var id := Identifier(key, row);
    id in DocumentsOf(s) && DocumentsOf(s)[id].sha == row.sha
  }

  /** A supplied copy is held only where it is judged already or no confirmation stands. */
  ghost predicate SuppliesAnswered(s: Store) {
    var held := Collapsed(s.acquisitions, {});
    forall key :: key in held && held[key].acquired && !IsOwn(held[key]) ==>
      IsJudged(s, key, held[key]) || AllAnswered(s, Identifier(key, held[key]))
  }

  ghost predicate Inv(s: Store) { RefutationsAnswered(s) && Traced(s) && SuppliesAnswered(s) }

  lemma {:induction false} CollapsedIsARow(rows: seq<Acquisition>, key: string)
    requires key in Collapsed(rows, {})
    ensures exists r :: 0 <= r < |rows| && rows[r] == Collapsed(rows, {})[key] && rows[r].key == Some(key)
  {
    var front, row := rows[..|rows| - 1], rows[|rows| - 1];
    if key in Collapsed(front, {}) {
      CollapsedIsARow(front, key);
    }
  }

  lemma {:induction false} SuccessStays(rows: seq<Acquisition>, r: nat)
    requires r < |rows| && rows[r].acquired && rows[r].key.Some? && forall i :: 0 <= i < |rows| ==> !rows[i].regated
    ensures Acquired(Collapsed(rows, {}), rows[r].key.value)
  {
    var n := |rows| - 1;
    if r < n {
      assert rows[..n][r] == rows[r];
      SuccessStays(rows[..n], r);
    }
  }

  // ---------- one step ----------

  lemma CollapsedSnoc(rows: seq<Acquisition>, row: Acquisition)
    ensures var best := Collapsed(rows, {});
      Collapsed(rows + [row], {}) ==
        if row.key.Some? && (row.key.value in best ==> Replaces(row, best[row.key.value]))
        then best[row.key.value := row] else best
  {
    assert (rows + [row])[..|rows|] == rows;
  }

  /** An own row can only take verdicts from the supplied side. */
  lemma OwnRowClaims(s: Store, row: Acquisition, i: nat)
    requires IsOwn(row) && i < |s.documents|
    ensures OnSupplied(s.(acquisitions := s.acquisitions + [row]), i) ==> OnSupplied(s, i)
  {
    var rows, more := s.acquisitions, s.acquisitions + [row];
    if JudgesSupplied(more, s.documents[i]) {
      var r :| 0 <= r < |more| && !IsOwn(more[r]) && ReadFrom(s.documents[i], more[r]);
      assert rows[r] == more[r];
      forall x | 0 <= x < |rows| && IsOwn(rows[x]) ensures !ReadFrom(s.documents[i], rows[x]) {
        assert more[x] == rows[x];
      }
    }
  }

  /** Fresh bytes change no verdict's side. */
  lemma FreshRowClaimsNothing(s: Store, row: Acquisition, i: nat)
    requires Traced(s) && i < |s.documents|
    requires forall r :: 0 <= r < |s.acquisitions| ==> s.acquisitions[r].sha != row.sha
    ensures OnSupplied(s.(acquisitions := s.acquisitions + [row]), i) == OnSupplied(s, i)
  {
    var rows, more, d := s.acquisitions, s.acquisitions + [row], s.documents[i];
    var t :| 0 <= t < |rows| && rows[t].acquired && ReadFrom(d, rows[t]);
    assert !ReadFrom(d, row);
    assert forall r :: 0 <= r < |rows| ==> more[r] == rows[r];
    if JudgesSupplied(rows, d) {
      var r :| 0 <= r < |rows| && !IsOwn(rows[r]) && ReadFrom(d, rows[r]);
      assert more[r] == rows[r];
    }
  }

  /** A new acquisition row that moves no verdict to the supplied side keeps what was answered. */
  lemma MoreRowsKeep(s: Store, row: Acquisition)
    requires RefutationsAnswered(s) && Traced(s)
    requires forall i :: 0 <= i < |s.documents| ==>
      (OnSupplied(s.(acquisitions := s.acquisitions + [row]), i) ==> OnSupplied(s, i))
    ensures var s' := s.(acquisitions := s.acquisitions + [row]);
      RefutationsAnswered(s') && Traced(s') && forall id :: AllAnswered(s, id) ==> AllAnswered(s', id)
  {
    var s' := s.(acquisitions := s.acquisitions + [row]);
    assert forall id, i, c :: Files(s', i, id, c) <==> Files(s, i, id, c);
    forall id, i, n | Answered(s, id, i, n) && n <= |s.documents| ensures Answered(s', id, i, n) {
      var m :| i < m < n && Files(s, m, id, false) && !OnSupplied(s, m);
      assert Files(s', m, id, false) && !OnSupplied(s', m);
    }
    hide OnSupplied;
    MoreRowsTrace(s, row);
  }

  lemma MoreRowsTrace(s: Store, row: Acquisition)
    requires Traced(s)
    ensures Traced(s.(acquisitions := s.acquisitions + [row]))
  {
    forall i | 0 <= i < |s.documents| ensures BroughtBySome(s.acquisitions + [row], s.documents[i]) {
      var r :| 0 <= r < |s.acquisitions| && s.acquisitions[r].acquired && ReadFrom(s.documents[i], s.acquisitions[r]);
      assert (s.acquisitions + [row])[r] == s.acquisitions[r];
    }
  }

  lemma AcquireKeeps(s: Store, row: Acquisition)
    requires Inv(s) && IsOwn(row)
    ensures Inv(s.(acquisitions := s.acquisitions + [row]))
  {
    var s' := s.(acquisitions := s.acquisitions + [row]);
    forall i | 0 <= i < |s.documents| && OnSupplied(s', i) ensures OnSupplied(s, i) {
      OwnRowClaims(s, row, i);
    }
    MoreRowsKeep(s, row);
    CollapsedSnoc(s.acquisitions, row);
    hide RefutationsAnswered, Traced, AllAnswered, Collapsed, DocumentsOf;
    var held, held' := Collapsed(s.acquisitions, {}), Collapsed(s'.acquisitions, {});
    forall key | key in held' && held'[key].acquired && !IsOwn(held'[key])
      ensures IsJudged(s', key, held'[key]) || AllAnswered(s', Identifier(key, held'[key]))
    {
      assert key in held && held[key] == held'[key];
      assert DocumentsOf(s') == DocumentsOf(s) by { SameDocuments(s, s'); }
    }
  }

  lemma SameDocuments(a: Store, b: Store)
    requires a.documents == b.documents
    ensures DocumentsOf(a) == DocumentsOf(b)
  {}

  /** Over a gap every earlier confirmation has been answered. */
  lemma GapIsAnswered(s: Store, id: string)
    requires RefutationsAnswered(s) && NoneConfirmed(s, id)
    ensures AllAnswered(s, id)
  {
    hide RefutationsAnswered, OnSupplied;
    forall i | Files(s, i, id, true) ensures Answered(s, id, i, |s.documents|) {
      var j := LatestIsLast(s.documents, (d: Document) => d.sourceId, id);
      assert i <= j && Files(s, j, id, false);
      if OnSupplied(s, j) {
        RefutationIsAnswered(s, id, i, j);
      }
    }
  }

  lemma RefutationIsAnswered(s: Store, id: string, i: int, j: int)
    requires RefutationsAnswered(s) && Files(s, i, id, true) && Files(s, j, id, false) && i < j && OnSupplied(s, j)
    ensures Answered(s, id, i, j)
  {}

  lemma SupplyKeeps(s: Store, row: Acquisition)
    requires Inv(s) && Accepted(s, row) && NoneConfirmed(s, Identifier(row.key.value, row))
    ensures Inv(s.(acquisitions := s.acquisitions + [row]))
  {
    var s' := s.(acquisitions := s.acquisitions + [row]);
    forall i | 0 <= i < |s.documents| && OnSupplied(s', i) ensures OnSupplied(s, i) {
      FreshRowClaimsNothing(s, row, i);
    }
    MoreRowsKeep(s, row);
    GapIsAnswered(s, Identifier(row.key.value, row));
    CollapsedSnoc(s.acquisitions, row);
    hide RefutationsAnswered, Traced, AllAnswered, Collapsed, DocumentsOf, HoldsCopy;
    var held, held' := Collapsed(s.acquisitions, {}), Collapsed(s'.acquisitions, {});
    forall key | key in held' && held'[key].acquired && !IsOwn(held'[key])
      ensures IsJudged(s', key, held'[key]) || AllAnswered(s', Identifier(key, held'[key]))
    {
      if key != row.key.value {
        assert key in held && held[key] == held'[key];
        assert DocumentsOf(s') == DocumentsOf(s) by { SameDocuments(s, s'); }
      }
    }
  }

  lemma NormalizeKeeps(s: Store, key: string, confirmed: bool)
    requires Inv(s) && OneSource(s.acquisitions)
    ensures Inv(After(s, Normalize(key, confirmed)))
  {
    var held := Collapsed(s.acquisitions, {});
    var s' := After(s, Normalize(key, confirmed));
    if s' != s {
      var row, id := held[key], Identifier(key, held[key]);
      var d := Document(Some(id), confirmed, row.sha);
      CollapsedIsARow(s.acquisitions, key);
      assert s'.documents == s.documents + [d];
      NewVerdictTraced(s, key, d);
      NewVerdictAnswered(s, key, d);
      LatestSnoc(s.documents, d, (x: Document) => x.sourceId);
      OtherSuppliesAnswered(s, key, d);
    }
  }

  ghost predicate Judging(s: Store, key: string, d: Document) {
    var held := Collapsed(s.acquisitions, {});
    key in held && held[key].acquired && d.sourceId == Some(Identifier(key, held[key])) && d.sha == held[key].sha
    && !IsJudged(s, key, held[key])
  }

  lemma NewVerdictTraced(s: Store, key: string, d: Document)
    requires Traced(s) && Judging(s, key, d)
    ensures Traced(s.(documents := s.documents + [d]))
  {
    CollapsedIsARow(s.acquisitions, key);
  }

  lemma MoreVerdictsKeep(s: Store, d: Document, id: string, i: int, n: int)
    requires Answered(s, id, i, n)
    ensures Answered(s.(documents := s.documents + [d]), id, i, n)
  {
    var s' := s.(documents := s.documents + [d]);
    var m :| i < m < n && Files(s, m, id, false) && !OnSupplied(s, m);
    assert Files(s', m, id, false) && !OnSupplied(s', m);
  }

  lemma NewVerdictAnswered(s: Store, key: string, d: Document)
    requires RefutationsAnswered(s) && SuppliesAnswered(s) && Judging(s, key, d)
    ensures RefutationsAnswered(s.(documents := s.documents + [d]))
  {
    var s', n := s.(documents := s.documents + [d]), |s.documents|;
    forall id, i, j | Files(s', i, id, true) && Files(s', j, id, false) && i < j && OnSupplied(s', j)
      ensures Answered(s', id, i, j)
    {
      assert Files(s, i, id, true);
      if j < n {
        assert Files(s, j, id, false) && OnSupplied(s, j);
        MoreVerdictsKeep(s, d, id, i, j);
      } else {
        HeldIsSupplied(s, key, d);
        assert AllAnswered(s, id);
        MoreVerdictsKeep(s, d, id, i, n);
      }
    }
  }

  lemma HeldIsSupplied(s: Store, key: string, d: Document)
    requires Judging(s, key, d) && JudgesSupplied(s.acquisitions, d)
    ensures !IsOwn(Collapsed(s.acquisitions, {})[key])
  {
    CollapsedIsARow(s.acquisitions, key);
  }

  lemma OtherSuppliesAnswered(s: Store, key: string, d: Document)
    requires SuppliesAnswered(s) && Judging(s, key, d) && OneSource(s.acquisitions)
    ensures SuppliesAnswered(s.(documents := s.documents + [d]))
  {
    var s' := s.(documents := s.documents + [d]);
    var held := Collapsed(s.acquisitions, {});
    LatestSnoc(s.documents, d, (x: Document) => x.sourceId);
    forall other | other in held && held[other].acquired && !IsOwn(held[other])
      ensures IsJudged(s', other, held[other]) || AllAnswered(s', Identifier(other, held[other]))
    {
      if other != key {
        OtherSource(s, key, other);
        var id := Identifier(other, held[other]);
        hide Collapsed, Answered;
        if AllAnswered(s, id) {
          forall i | Files(s', i, id, true) ensures Answered(s', id, i, |s'.documents|) {
            assert Files(s, i, id, true);
            MoreVerdictsKeep(s, d, id, i, |s.documents|);
            Later(s', id, i, |s.documents|, |s'.documents|);
          }
        }
      }
    }
  }

  lemma Later(s: Store, id: string, i: int, n: int, more: int)
    requires Answered(s, id, i, n) && n <= more
    ensures Answered(s, id, i, more)
  {}

  lemma OtherSource(s: Store, key: string, other: string)
    requires OneSource(s.acquisitions) && key != other
    requires key in Collapsed(s.acquisitions, {}) && other in Collapsed(s.acquisitions, {})
    ensures var held := Collapsed(s.acquisitions, {}); Identifier(key, held[key]) != Identifier(other, held[other])
  {
    CollapsedIsARow(s.acquisitions, key);
    CollapsedIsARow(s.acquisitions, other);
  }

  // ---------- over runs ----------

  lemma OneSourceSoFar(s: Store, step: Step)
    requires OneSource(After(s, step).acquisitions)
    ensures OneSource(s.acquisitions)
  {
    var more := After(s, step).acquisitions;
    assert more == s.acquisitions || more == s.acquisitions + [more[|s.acquisitions|]];
    assert forall i :: 0 <= i < |s.acquisitions| ==> more[i] == s.acquisitions[i];
  }

  lemma StepKeeps(s: Store, step: Step)
    requires Inv(s) && OneSource(s.acquisitions)
    requires step.Supply? && Accepted(s, step.row) ==> NoneConfirmed(s, Identifier(step.row.key.value, step.row))
    ensures Inv(After(s, step))
  {
    hide Inv, OneSource, Accepted, NoneConfirmed;
    match step
    case Acquire(row) => if IsOwn(row) { AcquireKeeps(s, row); }
    case Supply(row) => if Accepted(s, row) { SupplyKeeps(s, row); }
    case Normalize(key, confirmed) => NormalizeKeeps(s, key, confirmed);
  }

  predicate IsFresh(s: Store) { s.acquisitions == [] && s.documents == [] }

  lemma {:induction false} RunKeeps(s: Store, steps: seq<Step>)
    requires IsFresh(s) && OneSource(AfterAll(s, steps).acquisitions) && SuppliesFillGaps(s, steps)
    ensures Inv(AfterAll(s, steps))
  {
    hide OneSource, After;
    if steps != [] {
      var front, step := steps[..|steps| - 1], steps[|steps| - 1];
      OneSourceSoFar(AfterAll(s, front), step);
      RunKeeps(s, front);
      StepKeeps(AfterAll(s, front), step);
    }
  }

  /** A verdict under the row's source id means that the row's candidate holds a copy. */
  lemma VerdictMeansHeld(s: Store, row: Acquisition, i: int)
    requires Traced(s) && row.key.Some? && OneSource(s.acquisitions + [row])
    requires NoneRegated(s.acquisitions)
    requires 0 <= i < |s.documents| && s.documents[i].sourceId == Some(Identifier(row.key.value, row))
    ensures var key, held := row.key.value, Collapsed(s.acquisitions, {});
      key in held && held[key].acquired && Identifier(key, held[key]) == Identifier(key, row)
  {
    var key, n, rows := row.key.value, |s.acquisitions|, s.acquisitions + [row];
    var r :| 0 <= r < n && s.acquisitions[r].acquired && ReadFrom(s.documents[i], s.acquisitions[r]);
    assert rows[n] == row;
    assert forall x :: 0 <= x < n ==> rows[x] == s.acquisitions[x];
    hide Collapsed;
    assert rows[r].key == rows[n].key;
    SuccessStays(s.acquisitions, r);
    CollapsedIsARow(s.acquisitions, key);
    var held := Collapsed(s.acquisitions, {})[key];
    var x :| 0 <= x < n && s.acquisitions[x] == held && s.acquisitions[x].key == Some(key);
    assert rows[x].key == rows[n].key;
  }

  /** Without re-gates the guard on supplies keeps them off every confirmation. */
  lemma GuardFillsGaps(s: Store, row: Acquisition)
    requires Traced(s) && Accepted(s, row) && OneSource(s.acquisitions + [row]) && NoneRegated(s.acquisitions)
    ensures NoneConfirmed(s, Identifier(row.key.value, row))
  {
    var id := Identifier(row.key.value, row);
    if id in DocumentsOf(s) {
      var j := LatestIsLast(s.documents, (d: Document) => d.sourceId, id);
      VerdictMeansHeld(s, row, j);
      hide Collapsed, LatestBy;
    }
  }

  lemma NoneRegatedSoFar(s: Store, step: Step)
    requires NoneRegated(After(s, step).acquisitions)
    ensures NoneRegated(s.acquisitions)
  {
    var more := After(s, step).acquisitions;
    assert forall i :: 0 <= i < |s.acquisitions| ==> more[i] == s.acquisitions[i];
  }

  lemma {:induction false} GuardFillsGapsOverRuns(s: Store, steps: seq<Step>)
    requires IsFresh(s) && OneSource(AfterAll(s, steps).acquisitions) && NoneRegated(AfterAll(s, steps).acquisitions)
    ensures SuppliesFillGaps(s, steps)
  {
    hide OneSource, NoneRegated, Accepted, NoneConfirmed;
    if steps != [] {
      var front, step := steps[..|steps| - 1], steps[|steps| - 1];
      var before := AfterAll(s, front);
      OneSourceSoFar(before, step);
      NoneRegatedSoFar(before, step);
      GuardFillsGapsOverRuns(s, front);
      RunKeeps(s, front);
      if step.Supply? && Accepted(before, step.row) {
        assert AfterAll(s, steps).acquisitions == before.acquisitions + [step.row];
        GuardFillsGaps(before, step.row);
      }
    }
  }

  /** The verdict a filter leaves standing for a source id is the last one it keeps. */
  lemma {:induction false} KeptIsLastKept(rows: seq<Document>, keep: Document -> bool, id: string) returns (i: nat)
    requires id in LatestBy(Filter(keep, rows), (d: Document) => d.sourceId)
    ensures i < |rows| && rows[i] == LatestBy(Filter(keep, rows), (d: Document) => d.sourceId)[id]
    ensures rows[i].sourceId == Some(id) && keep(rows[i])
    ensures forall m :: i < m < |rows| && rows[m].sourceId == Some(id) ==> !keep(rows[m])
  {
    var front, row := rows[..|rows| - 1], rows[|rows| - 1];
    assert rows == front + [row];
    FilterConcat(keep, front, [row]);
    if keep(row) {
      assert Filter(keep, rows) == Filter(keep, front) + [row];
      LatestSnoc(Filter(keep, front), row, (d: Document) => d.sourceId);
    } else {
      assert Filter(keep, rows) == Filter(keep, front) + [] == Filter(keep, front);
    }
    if keep(row) && row.sourceId == Some(id) {
      i := |rows| - 1;
    } else {
      i := KeptIsLastKept(front, keep, id);
    }
  }

  /** A lost confirmation is the last of the own copies' verdicts, with a refuted supplied copy after it. */
  lemma LossLeaves(s: Store, key: string) returns (i: nat, j: nat)
    requires Loses(s, key)
    ensures var id := Identifier(key, OwnRow(s, key).value);
      i < j && Files(s, i, id, true) && Files(s, j, id, false) && OnSupplied(s, j) && !Answered(s, id, i, j)
  {
    var id := Identifier(key, OwnRow(s, key).value);
    hide LastDecisive, Filter, JudgesSupplied, LatestBy;
    i := KeptIsLastKept(s.documents, Kept(s.acquisitions), id);
    j := LatestIsLast(s.documents, (d: Document) => d.sourceId, id);
  }

  lemma NothingIsLost(s: Store, key: string)
    requires RefutationsAnswered(s)
    ensures !Loses(s, key)
  {
    hide Loses, Answered, Files;
    if Loses(s, key) {
      var i, j := LossLeaves(s, key);
    }
  }

  lemma NoLosses(s: Store, sel: Selection)
    requires Inv(s)
    ensures ConfirmedSet(RoundFor(Unsupplied(s), sel, false)) <= ConfirmedSet(RoundFor(s, sel, false))
  {
    hide Loses, Selected, RefutationsAnswered, RoundFor, ConfirmedSet, Unsupplied;
    forall k ensures k !in LossSet(s, sel) {
      NothingIsLost(s, k);
    }
    assert LossSet(s, sel) == {};
    SetsApart(s, sel);
    NoneLeftOver(ConfirmedSet(RoundFor(Unsupplied(s), sel, false)), ConfirmedSet(RoundFor(s, sel, false)));
  }

  lemma NoneLeftOver(a: set<string>, b: set<string>)
    requires a - b == {}
    ensures a <= b
  {
    forall k | k in a ensures k in b {
      assert k !in a - b;
    }
  }

  /** Over every run in which no copy is supplied over a confirmation, supplied copies can only add to
      what `separate` confirms: whatever the store without them confirms is confirmed. */
  lemma SuppliesOnlyAddOverRuns(s: Store, steps: seq<Step>, sel: Selection)
    requires IsFresh(s) && OneSource(AfterAll(s, steps).acquisitions) && SuppliesFillGaps(s, steps)
    ensures var after := AfterAll(s, steps);
      ConfirmedSet(RoundFor(Unsupplied(after), sel, false)) <= ConfirmedSet(RoundFor(after, sel, false))
  {
    hide *;
    RunKeeps(s, steps);
    NoLosses(AfterAll(s, steps), sel);
  }

  /** The guard sees to that in every run without a re-gate. */
  lemma GuardedSuppliesOnlyAdd(s: Store, steps: seq<Step>, sel: Selection)
    requires IsFresh(s) && OneSource(AfterAll(s, steps).acquisitions) && NoneRegated(AfterAll(s, steps).acquisitions)
    ensures var after := AfterAll(s, steps);
      ConfirmedSet(RoundFor(Unsupplied(after), sel, false)) <= ConfirmedSet(RoundFor(after, sel, false))
  {
    hide *;
    GuardFillsGapsOverRuns(s, steps);
    SuppliesOnlyAddOverRuns(s, steps, sel);
  }

  // ---------- two runs ----------

  const EVERYTHING := Selection(None, false)

  /** An own copy and a supplied one of the candidate `k`, with different bytes. */
  predicate TwoCopies(c: Candidate, own: Acquisition, copy: Acquisition) {
    && c.key == own.key == copy.key == Some("k") && own.sourceId == copy.sourceId == c.sourceId
    && own.acquired && !own.regated && IsOwn(own) && copy.acquired && !copy.regated && !IsOwn(copy)
    && own.sha != copy.sha && copy.sha != ""
  }

  function Begun(c: Candidate, rows: seq<Acquisition>, verdicts: seq<Document>): Store {
    Store([c], rows, verdicts, [], false)
  }

  lemma RunSnoc(s: Store, steps: seq<Step>, step: Step)
    ensures AfterAll(s, steps + [step]) == After(AfterAll(s, steps), step)
  {
    assert (steps + [step])[..|steps|] == steps;
  }

  lemma OneCandidate(c: Candidate, rows: seq<Acquisition>, verdicts: seq<Document>)
    requires c.key == Some("k")
    ensures LatestBy([c], (x: Candidate) => x.key) == map["k" := c]
    ensures Selected(Begun(c, rows, verdicts), EVERYTHING) == map["k" := c]
  {
    assert [c][..0] == [];
    assert LatestBy([c], (x: Candidate) => x.key) == map["k" := c];
  }

  lemma Verdicts(c: Candidate, rows: seq<Acquisition>, verdicts: seq<Document>, d: Document)
    requires d.sourceId.Some?
    ensures DocumentsOf(Begun(c, rows, verdicts + [d])) == DocumentsOf(Begun(c, rows, verdicts))[d.sourceId.value := d]
    ensures DocumentsOf(Begun(c, rows, [])) == map[]
  {
    LatestSnoc(verdicts, d, (x: Document) => x.sourceId);
  }

  /** An own copy is refuted, one is supplied in its place and confirmed: `separate` then counts the
      candidate as confirmed, and the line for supplied copies does not name it. */
  lemma SuppliedVerdictCounts(c: Candidate, own: Acquisition, copy: Acquisition)
    requires TwoCopies(c, own, copy)
    ensures var steps := [Acquire(own), Normalize("k", false), Supply(copy), Normalize("k", true)];
      var s := AfterAll(Begun(c, [], []), steps);
      && ConfirmedSet(RoundFor(s, EVERYTHING, false)) == {"k"} && SuppliedOnly(s, EVERYTHING, false) == map[]
      && ConfirmedSet(RoundFor(Unsupplied(s), EVERYTHING, false)) == {}
      && RefutedSet(RoundFor(Unsupplied(s), EVERYTHING, false)) == {"k"}
  {
    var id := Identifier("k", own);
    var no, yes := Document(Some(id), false, own.sha), Document(Some(id), true, copy.sha);
    SupplyRun(c, own, copy);
    UnsuppliedPair(c, own, copy, no, yes);
    OneOwn(own);
    TwoHeld(own, copy);
    Verdicts(c, [own, copy], [no], yes);
    Verdicts(c, [own, copy], [], no);
    Verdicts(c, [own], [], no);
    assert [] + [no] == [no] && [no] + [yes] == [no, yes];
    hide Collapsed, LatestBy, DocumentsOf, Selected, AfterAll, Unsupplied, RoundFor;
    RoundIs(c, [own, copy], [no, yes], own, yes);
    RoundIs(c, [own], [no], own, no);
    NotOnTheLine(c, [own, copy], [no, yes], own);
  }

  /** A round of one candidate, its held own copy and the one verdict on file. */
  lemma RoundIs(c: Candidate, rows: seq<Acquisition>, verdicts: seq<Document>, held: Acquisition, d: Document)
    requires c.key == Some("k") && Collapsed(rows, {OPERATOR_SUPPLIED}) == map["k" := held] && held.acquired
    requires DocumentsOf(Begun(c, rows, verdicts)) == map[Identifier("k", held) := d]
    ensures var r := RoundFor(Begun(c, rows, verdicts), EVERYTHING, false);
      && ConfirmedSet(r) == (if d.confirmed then {"k"} else {})
      && RefutedSet(r) == (if d.confirmed then {} else {"k"})
  {
    OneCandidate(c, rows, verdicts);
    var r := RoundFor(Begun(c, rows, verdicts), EVERYTHING, false);
    hide Collapsed, DocumentsOf, LatestBy, Selected;
    assert r.rows == map["k" := held];
    assert r.documents == map[Identifier("k", held) := d] by { DocumentsRead(Begun(c, rows, verdicts), EVERYTHING); }
  }

  lemma NotOnTheLine(c: Candidate, rows: seq<Acquisition>, verdicts: seq<Document>, held: Acquisition)
    requires c.key == Some("k") && Collapsed(rows, {OPERATOR_SUPPLIED}) == map["k" := held] && held.acquired
    ensures SuppliedOnly(Begun(c, rows, verdicts), EVERYTHING, false) == map[]
  {
    var s := Begun(c, rows, verdicts);
    OneCandidate(c, rows, verdicts);
    hide Collapsed, LatestBy;
    assert "k" in RoundFor(s, EVERYTHING, false).rows;
    assert Obtained(RoundFor(s, EVERYTHING, false), "k");
    assert forall key :: key in RoundFor(s, EVERYTHING, true).rows ==> key == "k";
  }

  lemma OneOwn(own: Acquisition)
    requires own.key == Some("k") && IsOwn(own)
    ensures forall countSupplied :: Collapsed([own], Excluded(countSupplied)) == map["k" := own]
    ensures Collapsed([own], {OPERATOR_SUPPLIED}) == Collapsed([own], {}) == map["k" := own]
  {
    assert [own][..0] == [];
  }

  lemma TwoHeld(own: Acquisition, copy: Acquisition)
    requires own.key == copy.key == Some("k") && IsOwn(own) && !IsOwn(copy) && copy.acquired
    ensures Collapsed([own, copy], {OPERATOR_SUPPLIED}) == map["k" := own]
    ensures Collapsed([own, copy], {}) == map["k" := copy]
  {
    OneOwn(own);
    assert [own, copy][..1] == [own];
  }

  lemma UnsuppliedPair(c: Candidate, own: Acquisition, copy: Acquisition, a: Document, b: Document)
    requires TwoCopies(c, own, copy)
    requires a == Document(Some(Identifier("k", own)), a.confirmed, own.sha)
    requires b == Document(Some(Identifier("k", copy)), b.confirmed, copy.sha)
    ensures Unsupplied(Begun(c, [own, copy], [a, b])) == Begun(c, [own], [a])
  {
    var rows := [own, copy];
    assert ReadFrom(a, rows[0]) && ReadFrom(b, rows[1]) && !ReadFrom(b, rows[0]);
    assert Kept(rows)(a) && !Kept(rows)(b);
    assert [a, b] == [a] + [b] && [own, copy] == [own] + [copy];
    FilterConcat(Kept(rows), [a], [b]);
    FilterConcat(IsOwn, [own], [copy]);
    FilterOne(Kept(rows), a);
    FilterOne(Kept(rows), b);
    FilterOne(IsOwn, own);
    FilterOne(IsOwn, copy);
  }

  lemma FourSteps(s: Store, a: Step, b: Step, c: Step, d: Step)
    ensures AfterAll(s, [a, b, c, d]) == After(After(After(After(s, a), b), c), d)
  {
    hide After;
    assert [a, b, c, d][..3] == [a, b, c] && [a, b, c][..2] == [a, b] && [a, b][..1] == [a] && [a][..0] == [];
    assert AfterAll(s, []) == s;
    assert AfterAll(s, [a]) == After(s, a);
    assert AfterAll(s, [a, b]) == After(After(s, a), b);
  }

  /** Judging the held copy of `k` when nothing is on file for it, or only other bytes. */
  lemma JudgeHeld(c: Candidate, rows: seq<Acquisition>, verdicts: seq<Document>, held: Acquisition, confirmed: bool)
    requires Collapsed(rows, {}) == map["k" := held] && held.acquired
    requires !IsJudged(Begun(c, rows, verdicts), "k", held)
    ensures After(Begun(c, rows, verdicts), Normalize("k", confirmed)) ==
      Begun(c, rows, verdicts + [Document(Some(Identifier("k", held)), confirmed, held.sha)])
  {
    hide Collapsed, DocumentsOf;
  }

  lemma SupplyHeld(c: Candidate, rows: seq<Acquisition>, verdicts: seq<Document>, held: Acquisition, copy: Acquisition)
    requires TwoCopies(c, held.(acquired := true, regated := false), copy)
    requires Collapsed(rows, {}) == map["k" := held] && forall i :: 0 <= i < |rows| ==> rows[i].sha != copy.sha
    requires var id, on := Identifier("k", held), DocumentsOf(Begun(c, rows, verdicts));
      held.acquired ==> id in on && !on[id].confirmed
    ensures After(Begun(c, rows, verdicts), Supply(copy)) == Begun(c, rows + [copy], verdicts)
  {
    OneCandidate(c, rows, verdicts);
    hide Collapsed, DocumentsOf, LatestBy;
  }

  lemma SupplyRun(c: Candidate, own: Acquisition, copy: Acquisition)
    requires TwoCopies(c, own, copy)
    ensures var id := Identifier("k", own);
      AfterAll(Begun(c, [], []), [Acquire(own), Normalize("k", false), Supply(copy), Normalize("k", true)]) ==
      Begun(c, [own, copy], [Document(Some(id), false, own.sha), Document(Some(id), true, copy.sha)])
  {
    var id, start := Identifier("k", own), Begun(c, [], []);
    var a, b := Document(Some(id), false, own.sha), Document(Some(id), true, copy.sha);
    FourSteps(start, Acquire(own), Normalize("k", false), Supply(copy), Normalize("k", true));
    OneOwn(own);
    TwoHeld(own, copy);
    Verdicts(c, [own], [], a);
    Verdicts(c, [own, copy], [], a);
    hide Collapsed, DocumentsOf, AfterAll;
    assert [] + [own] == [own] && [own] + [copy] == [own, copy] && [] + [a] == [a] && [a] + [b] == [a, b];
    JudgeHeld(c, [own], [], own, false);
    SupplyHeld(c, [own], [a], own, copy);
    JudgeHeld(c, [own, copy], [a], copy, true);
  }

  // ---------- with a re-gate between ----------

  /** The later reading of an own copy that takes its success back. */
  function Regated(own: Acquisition): Acquisition { own.(acquired := false, regated := true, sha := "") }

  lemma RegateHeld(own: Acquisition, copy: Acquisition)
    requires own.key == copy.key == Some("k") && own.acquired && IsOwn(own) && !IsOwn(copy) && copy.acquired
    ensures Collapsed([own, Regated(own)], {}) == map["k" := Regated(own)]
    ensures Collapsed([own, Regated(own), copy], {}) == map["k" := copy]
    ensures Collapsed([own, Regated(own), copy, own], {OPERATOR_SUPPLIED}) == map["k" := own]
    ensures Collapsed([own, Regated(own), own], {OPERATOR_SUPPLIED}) == map["k" := own]
  {
    var again := Regated(own);
    OneOwn(own);
    assert [own, again][..1] == [own] && [own, again, copy][..2] == [own, again];
    assert [own, again, copy, own][..3] == [own, again, copy] && [own, again, own][..2] == [own, again];
    assert Collapsed([own, again], {OPERATOR_SUPPLIED}) == map["k" := again];
    assert Collapsed([own, again, copy], {OPERATOR_SUPPLIED}) == map["k" := again];
  }

  lemma RegateRun(c: Candidate, own: Acquisition, copy: Acquisition)
    requires TwoCopies(c, own, copy)
    ensures var id := Identifier("k", own);
      AfterAll(Begun(c, [], []), [Acquire(own), Normalize("k", true), Acquire(Regated(own)), Supply(copy),
                                  Normalize("k", false), Acquire(own)]) ==
      Begun(c, [own, Regated(own), copy, own],
            [Document(Some(id), true, own.sha), Document(Some(id), false, copy.sha)])
  {
    var id, again := Identifier("k", own), Regated(own);
    var a, b := Document(Some(id), true, own.sha), Document(Some(id), false, copy.sha);
    SixSteps(Begun(c, [], []), Acquire(own), Normalize("k", true), Acquire(again), Supply(copy), Normalize("k", false),
             Acquire(own));
    RegateFirstHalf(c, own, a);
    RegateSecondHalf(c, own, copy, a, b);
  }

  lemma RegateFirstHalf(c: Candidate, own: Acquisition, a: Document)
    requires own.key == Some("k") && own.acquired && IsOwn(own)
    requires a == Document(Some(Identifier("k", own)), true, own.sha)
    ensures After(After(After(Begun(c, [], []), Acquire(own)), Normalize("k", true)), Acquire(Regated(own))) ==
      Begun(c, [own, Regated(own)], [a])
  {
    OneOwn(own);
    Verdicts(c, [own], [], a);
    hide Collapsed, DocumentsOf, After;
    assert [] + [own] == [own] && [own] + [Regated(own)] == [own, Regated(own)] && [] + [a] == [a];
    AcquireOwn(c, [], [], own);
    JudgeHeld(c, [own], [], own, true);
    AcquireOwn(c, [own], [a], Regated(own));
  }

  lemma RegateSecondHalf(c: Candidate, own: Acquisition, copy: Acquisition, a: Document, b: Document)
    requires TwoCopies(c, own, copy) && a == Document(Some(Identifier("k", own)), true, own.sha)
    requires b == Document(Some(Identifier("k", own)), false, copy.sha)
    ensures var half := Begun(c, [own, Regated(own)], [a]);
      After(After(After(half, Supply(copy)), Normalize("k", false)), Acquire(own)) ==
      Begun(c, [own, Regated(own), copy, own], [a, b])
  {
    var again := Regated(own);
    RegateHeld(own, copy);
    Verdicts(c, [own, again, copy], [], a);
    hide Collapsed, DocumentsOf, After;
    assert [own, again] + [copy] == [own, again, copy] && [] + [a] == [a] && [a] + [b] == [a, b];
    assert [own, again, copy] + [own] == [own, again, copy, own];
    SupplyHeld(c, [own, again], [a], again, copy);
    JudgeHeld(c, [own, again, copy], [a], copy, false);
    AcquireOwn(c, [own, again, copy], [a, b], own);
  }

  lemma AcquireOwn(c: Candidate, rows: seq<Acquisition>, verdicts: seq<Document>, row: Acquisition)
    requires IsOwn(row)
    ensures After(Begun(c, rows, verdicts), Acquire(row)) == Begun(c, rows + [row], verdicts)
  {}

  lemma SixSteps(s: Store, a: Step, b: Step, c: Step, d: Step, e: Step, f: Step)
    ensures AfterAll(s, [a, b, c, d, e, f]) == After(After(After(After(After(After(s, a), b), c), d), e), f)
  {
    FourSteps(s, a, b, c, d);
    hide After, AfterAll;
    assert [a, b, c, d] + [e] == [a, b, c, d, e] && [a, b, c, d, e] + [f] == [a, b, c, d, e, f];
    RunSnoc(s, [a, b, c, d], e);
    RunSnoc(s, [a, b, c, d, e], f);
  }

  /** A re-gate lets a supply in although the copy was confirmed. Acquired again, the same copy is
      confirmed in the store without supplies and refuted under `separate`. */
  lemma RegateLosesAConfirmation(c: Candidate, own: Acquisition, copy: Acquisition)
    requires TwoCopies(c, own, copy)
    ensures var steps := [Acquire(own), Normalize("k", true), Acquire(Regated(own)), Supply(copy),
                          Normalize("k", false), Acquire(own)];
      var s := AfterAll(Begun(c, [], []), steps);
      && ConfirmedSet(RoundFor(s, EVERYTHING, false)) == {}
      && ConfirmedSet(RoundFor(Unsupplied(s), EVERYTHING, false)) == {"k"}
  {
    var id, again := Identifier("k", own), Regated(own);
    var a, b := Document(Some(id), true, own.sha), Document(Some(id), false, copy.sha);
    RegateRun(c, own, copy);
    RegateUnsupplied(c, own, copy, a, b);
    RegateHeld(own, copy);
    Verdicts(c, [own, again, copy, own], [a], b);
    Verdicts(c, [own, again, copy, own], [], a);
    Verdicts(c, [own, again, own], [], a);
    assert [] + [a] == [a] && [a] + [b] == [a, b];
    hide Collapsed, LatestBy, DocumentsOf, Selected, AfterAll, Unsupplied, RoundFor;
    RoundIs(c, [own, again, copy, own], [a, b], own, b);
    RoundIs(c, [own, again, own], [a], own, a);
  }

  lemma RegateUnsupplied(c: Candidate, own: Acquisition, copy: Acquisition, a: Document, b: Document)
    requires TwoCopies(c, own, copy)
    requires a == Document(Some(Identifier("k", own)), a.confirmed, own.sha)
    requires b == Document(Some(Identifier("k", copy)), b.confirmed, copy.sha)
    ensures Unsupplied(Begun(c, [own, Regated(own), copy, own], [a, b])) == Begun(c, [own, Regated(own), own], [a])
  {
    var rows := [own, Regated(own), copy, own];
    OwnOfFour(own, copy);
    assert ReadFrom(a, rows[0]) && ReadFrom(b, rows[2]) && !ReadFrom(b, rows[0]);
    assert Kept(rows)(a) && !Kept(rows)(b);
    assert [a, b] == [a] + [b];
    FilterConcat(Kept(rows), [a], [b]);
    FilterOne(Kept(rows), a);
    FilterOne(Kept(rows), b);
    hide Filter;
  }

  lemma OwnOfFour(own: Acquisition, copy: Acquisition)
    requires IsOwn(own) && !IsOwn(copy)
    ensures Filter(IsOwn, [own, Regated(own), copy, own]) == [own, Regated(own), own]
  {
    var again := Regated(own);
    FilterOne(IsOwn, own);
    FilterOne(IsOwn, again);
    FilterOne(IsOwn, copy);
    FilterConcat(IsOwn, [own], [again]);
    FilterConcat(IsOwn, [copy], [own]);
    FilterConcat(IsOwn, [own] + [again], [copy] + [own]);
    hide Filter;
    assert [own, again, copy, own] == ([own] + [again]) + ([copy] + [own]);
    assert ([own] + [again]) + ([] + [own]) == [own, again, own];
  }
}
