/** The two ledgers read as one last-writer register per claim id, over every run of harvests from
    any legacy start, and re-harvesting is idempotent unless two answers claim one legacy row. */
module ClaimRegisterLaws {
  import opened Seqs
  import opened Ledger
  import opened ClaimRegister

  function Rev(row: Row): int { RevisionOr(row, 0) }

  ghost predicate LegacyStart(j: Journal) {
    forall i :: 0 <= i < |j| ==> Rev(j[i]) == 0
  }

  /** `gate_revision` came before the result key and the answer batches: a row without the first has
      neither of the others. */
  ghost predicate LegacyShape(j: Journal) {
    forall i :: 0 <= i < |j| && Rev(j[i]) == 0 ==> j[i].decision.key.None? && j[i].decision.batches == {}
  }

  /** Per id, legacy zeros come first and then revisions strictly increase, whichever file a row
      went to. */
  ghost predicate RevisionOrder(j: Journal) {
    forall i, k :: 0 <= i < k < |j| && j[i].id == j[k].id ==> Rev(j[i]) < Rev(j[k]) || Rev(j[i]) == Rev(j[k]) == 0
  }

  lemma LedgersSnoc(j: Journal, row: Row)
    ensures LatestBy(j + [row], Key) == LatestBy(j, Key)[row.id := row]
    ensures LatestBy(Claims(j + [row]), Key) ==
      if row.decision.accepted then LatestBy(Claims(j), Key)[row.id := row] else LatestBy(Claims(j), Key)
    ensures LatestBy(Rejections(j + [row]), Key) ==
      if row.decision.accepted then LatestBy(Rejections(j), Key) else LatestBy(Rejections(j), Key)[row.id := row]
  {
    LatestSnoc(j, row, Key);
    FilterConcat(IsClaim, j, [row]);
    FilterConcat(IsRejection, j, [row]);
    assert Claims(j) + [] == Claims(j) && Rejections(j) + [] == Rejections(j);
    LatestSnoc(Claims(j), row, Key);
    LatestSnoc(Rejections(j), row, Key);
  }

  /** How the latest row of the journal relates to the latest row of each file. */
  lemma {:induction false} LatestSplit(j: Journal, id: Id)
    ensures var l, c := Get(LatestBy(j, Key), id), Get(LatestBy(Claims(j), Key), id);
      var r := Get(LatestBy(Rejections(j), Key), id);
      && (l.None? <==> c.None? && r.None?)
      && (l.Some? ==> l == if l.value.decision.accepted then c else r)
      && (c.Some? ==> c.value in j && c.value.id == id && c.value.decision.accepted)
      && (r.Some? ==> r.value in j && r.value.id == id && !r.value.decision.accepted)
  {
    if j != [] {
      var front, row := j[..|j| - 1], j[|j| - 1];
      assert j == front + [row];
      LatestSplit(front, id);
      LedgersSnoc(front, row);
    }
  }

  /** Every row of an id is at most as recent, and at most as revised, as its latest row. */
  lemma LatestIsHighest(j: Journal, id: Id, row: Row)
    requires RevisionOrder(j) && row in j && row.id == id
    ensures id in LatestBy(j, Key)
    ensures var last := LatestBy(j, Key)[id]; row == last || Rev(row) < Rev(last) || Rev(row) == Rev(last) == 0
  {
    var k := LatestIsLast(j, Key, id);
    var i :| 0 <= i < |j| && j[i] == row;
  }

  /** Once a decision with a revision exists, both merges hold exactly the one appended last. */
  lemma LastWriterWins(j: Journal, id: Id)
    requires RevisionOrder(j) && id in LatestBy(j, Key) && Rev(LatestBy(j, Key)[id]) > 0
    ensures Current(j, id) == Some(LatestBy(j, Key)[id]) == Held(j, id)
  {
    LatestSplit(j, id);
    var claims, rejections := LatestBy(Claims(j), Key), LatestBy(Rejections(j), Key);
    if id in claims && id in rejections {
      LatestIsHighest(j, id, claims[id]);
      LatestIsHighest(j, id, rejections[id]);
    }
  }

  /** On legacy rows the two merges differ on one case: both ledgers know the id and the claim row
      carries no revision. Then `current` keeps the claim and `harvest` compares with the
      rejection. */
  lemma MergesDifferExactlyWhen(j: Journal, id: Id)
    requires RevisionOrder(j)
    ensures var claims, rejections := LatestBy(Claims(j), Key), LatestBy(Rejections(j), Key);
      Current(j, id) != Held(j, id) <==>
        && id in claims && id in rejections && claims[id].revision.None? && Rev(rejections[id]) == 0
  {
    LatestSplit(j, id);
    var claims, rejections := LatestBy(Claims(j), Key), LatestBy(Rejections(j), Key);
    if id in claims && id in rejections {
      LatestIsHighest(j, id, claims[id]);
      LatestIsHighest(j, id, rejections[id]);
      assert claims[id].decision.accepted && !rejections[id].decision.accepted;
    }
  }

  // ---------- runs of harvests ----------

  lemma HeldIsHighest(j: Journal, id: Id, row: Row)
    requires RevisionOrder(j) && row in j && row.id == id
    ensures Held(j, id).Some? && Rev(row) <= Rev(Held(j, id).value)
  {
    LatestIsHighest(j, id, row);
    LatestSplit(j, id);
    if Rev(LatestBy(j, Key)[id]) > 0 {
      LastWriterWins(j, id);
    }
  }

  lemma HeldMapIs(j: Journal, id: Id)
    ensures Get(HeldMap(j), id) == Held(j, id)
  {}

  lemma NewRowIsHighest(j: Journal, p: Proposal, h: Harvesting)
    requires RevisionOrder(j) && Appended(HeldMap(j), p, h).Some?
    ensures var row := Appended(HeldMap(j), p, h).value;
      Rev(row) > 0 && forall i :: 0 <= i < |j| && j[i].id == row.id ==> Rev(j[i]) < Rev(row)
  {
    var row := Appended(HeldMap(j), p, h).value;
    HeldMapIs(j, row.id);
    forall i | 0 <= i < |j| && j[i].id == row.id ensures Rev(j[i]) < Rev(row) {
      HeldIsHighest(j, row.id, j[i]);
    }
    if Held(j, row.id).Some? {
      LatestSplit(j, row.id);
    }
  }

  lemma HighestIsShown(j: Journal, row: Row)
    requires RevisionOrder(j) && Rev(row) > 0
    requires forall i :: 0 <= i < |j| && j[i].id == row.id ==> Rev(j[i]) < Rev(row)
    ensures RevisionOrder(j + [row]) && Held(j + [row], row.id) == Some(row)
  {
    LatestSnoc(j, row, Key);
    LastWriterWins(j + [row], row.id);
  }

  lemma HighestIsHeld(j: Journal, row: Row)
    requires RevisionOrder(j) && Rev(row) > 0
    requires forall i :: 0 <= i < |j| && j[i].id == row.id ==> Rev(j[i]) < Rev(row)
    ensures HeldMap(j + [row]) == HeldMap(j)[row.id := row]
  {
    var before, after := HeldMap(j), HeldMap(j + [row]);
    HighestIsShown(j, row);
    forall id ensures Get(after, id) == Get(before[row.id := row], id) {
      HeldMapIs(j + [row], id);
      HeldMapIs(j, id);
      if id != row.id {
        HeldElsewhere(j, row, id);
      }
    }
    SameMap(after, before[row.id := row]);
  }

  lemma SameMap(a: map<Id, Row>, b: map<Id, Row>)
    requires forall id :: Get(a, id) == Get(b, id)
    ensures a == b
  {
    forall id ensures id in a <==> id in b {
      assert Get(a, id) == Get(b, id);
    }
    forall id | id in a ensures a[id] == b[id] {
      assert Get(a, id) == Get(b, id);
    }
  }

  lemma HeldElsewhere(j: Journal, row: Row, id: Id)
    requires id != row.id
    ensures Held(j + [row], id) == Held(j, id) && Current(j + [row], id) == Current(j, id)
  {
    LedgersSnoc(j, row);
  }

  /** One proposal keeps the order, and what it decides becomes the held decision. */
  lemma OneKeepsOrder(j: Journal, p: Proposal, h: Harvesting)
    requires RevisionOrder(j)
    ensures var row := Appended(HeldMap(j), p, h);
      var after := j + if row.Some? then [row.value] else [];
      && RevisionOrder(after) && HeldMap(after) == AfterOne(HeldMap(j), p, h)
      && (row.Some? ==> Rev(row.value) > 0)
  {
    var row := Appended(HeldMap(j), p, h);
    if row.Some? {
      NewRowIsHighest(j, p, h);
      HighestIsShown(j, row.value);
      HighestIsHeld(j, row.value);
    } else {
      assert j + [] == j;
    }
  }

  lemma HarvestLast(held: map<Id, Row>, ps: seq<Proposal>, h: Harvesting)
    requires ps != []
    ensures var front := ps[..|ps| - 1];
      var row := Appended(AfterAll(held, front, h), ps[|ps| - 1], h);
      && RowsOf(held, ps, h) == RowsOf(held, front, h) + (if row.Some? then [row.value] else [])
      && AfterAll(held, ps, h) == AfterOne(AfterAll(held, front, h), ps[|ps| - 1], h)
  {}

  /** `rows` are what a harvest has appended to `j` so far, and `held` what it holds in memory. */
  ghost predicate InStep(j: Journal, rows: seq<Row>, held: map<Id, Row>) {
    RevisionOrder(j + rows) && HeldMap(j + rows) == held && forall row :: row in rows ==> Rev(row) > 0
  }

  lemma StepStays(j: Journal, rows: seq<Row>, held: map<Id, Row>, p: Proposal, h: Harvesting)
    requires InStep(j, rows, held)
    ensures var row := Appended(held, p, h);
      InStep(j, rows + (if row.Some? then [row.value] else []), AfterOne(held, p, h))
  {
    hide RevisionOrder, HeldMap, Appended, AfterOne, Rev;
    OneKeepsOrder(j + rows, p, h);
    var row := Appended(held, p, h);
    var last := if row.Some? then [row.value] else [];
    assert j + (rows + last) == (j + rows) + last;
  }

  lemma {:induction false} HarvestKeepsOrder(j: Journal, ps: seq<Proposal>, h: Harvesting)
    requires RevisionOrder(j)
    ensures InStep(j, RowsOf(HeldMap(j), ps, h), AfterAll(HeldMap(j), ps, h))
  {
    var held := HeldMap(j);
    if ps == [] {
      assert j + [] == j;
    } else {
      var front := ps[..|ps| - 1];
      HarvestKeepsOrder(j, front, h);
      StepStays(j, RowsOf(held, front, h), AfterAll(held, front, h), ps[|ps| - 1], h);
      HarvestLast(held, ps, h);
    }
  }

  datatype Call = Call(proposals: seq<Proposal>, h: Harvesting)

  function AfterHarvests(j: Journal, calls: seq<Call>): Journal {
    if calls == [] then j
    else
      var before, call := AfterHarvests(j, calls[..|calls| - 1]), calls[|calls| - 1];
      before + RowsOf(HeldMap(before), call.proposals, call.h)
  }

  lemma {:induction false} RunsKeepOrder(j: Journal, calls: seq<Call>)
    requires LegacyStart(j)
    ensures var after := AfterHarvests(j, calls);
      && RevisionOrder(after) && j <= after
      && forall i :: |j| <= i < |after| ==> Rev(after[i]) > 0
  {
    if calls != [] {
      RunsKeepOrder(j, calls[..|calls| - 1]);
      var before, call := AfterHarvests(j, calls[..|calls| - 1]), calls[|calls| - 1];
      HarvestKeepsOrder(before, call.proposals, call.h);
    }
  }

  /** The register, over every run of harvests from any revision-zero start: revisions of an id
      strictly increase up to and along the appended rows, across both files. */
  lemma RevisionsIncrease(j: Journal, calls: seq<Call>, i: nat, k: nat)
    requires LegacyStart(j) && i < k < |AfterHarvests(j, calls)| && |j| <= k
    requires AfterHarvests(j, calls)[i].id == AfterHarvests(j, calls)[k].id
    ensures Rev(AfterHarvests(j, calls)[i]) < Rev(AfterHarvests(j, calls)[k])
  {
    RunsKeepOrder(j, calls);
  }

  /** Once any harvest wrote an id, the merge shows exactly the decision appended last. */
  lemma MergeIsLastWriter(j: Journal, calls: seq<Call>, i: nat)
    requires LegacyStart(j) && |j| <= i < |AfterHarvests(j, calls)|
    ensures var after, id := AfterHarvests(j, calls), AfterHarvests(j, calls)[i].id;
      id in LatestBy(after, Key) && Current(after, id) == Some(LatestBy(after, Key)[id]) == Held(after, id)
  {
    RunsKeepOrder(j, calls);
    var after := AfterHarvests(j, calls);
    LatestIsHighest(after, after[i].id, after[i]);
    LastWriterWins(after, after[i].id);
  }

  /** An id no harvest wrote keeps its legacy meaning. */
  lemma LegacyMeaningKept(j: Journal, calls: seq<Call>, id: Id)
    requires LegacyStart(j)
    requires forall i :: |j| <= i < |AfterHarvests(j, calls)| ==> AfterHarvests(j, calls)[i].id != id
    ensures Current(AfterHarvests(j, calls), id) == Current(j, id)
  {
    RunsKeepOrder(j, calls);
    var after := AfterHarvests(j, calls);
    Untouched(j, after[|j|..], id);
    assert after == j + after[|j|..];
  }

  lemma {:induction false} Untouched(j: Journal, rows: seq<Row>, id: Id)
    requires forall i :: 0 <= i < |rows| ==> rows[i].id != id
    ensures Current(j + rows, id) == Current(j, id) && Held(j + rows, id) == Held(j, id)
  {
    if rows == [] {
      assert j + rows == j;
    } else {
      var n := |rows| - 1;
      Untouched(j, rows[..n], id);
      HeldElsewhere(j + rows[..n], rows[n], id);
      assert j + rows == (j + rows[..n]) + [rows[n]];
    }
  }

  // ---------- re-harvesting ----------

  /** The proposal says what the legacy row held for its historical id says, by the same reader. */
  predicate Matches(held: map<Id, Row>, p: Proposal, h: Harvesting) {
    HistoricalId(p) in held && held[HistoricalId(p)].decision.reader == h.answered(p.key).reader
    && held[HistoricalId(p)].decision.record == p.record
  }

  /** The harness a legacy row stands for once the batch is harvested: its own, or else that of the
      first proposal that takes it over. */
  function Standing(held: map<Id, Row>, ps: seq<Proposal>, id: Id, h: Harvesting): string
    requires id in held
  {
    if ps == [] then held[id].decision.harness
    else
      var before := Standing(held, ps[..|ps| - 1], id, h);
      var p := ps[|ps| - 1];
      if before == "" && HistoricalId(p) == id && Matches(held, p, h) then h.answered(p.key).harness else before
  }

  /** The proposal keeps its historical id throughout. */
  predicate TakesOver(held: map<Id, Row>, ps: seq<Proposal>, p: Proposal, h: Harvesting) {
    Matches(held, p, h) && h.answered(p.key).harness == Standing(held, ps, HistoricalId(p), h)
  }

  function Settled(held: map<Id, Row>, ps: seq<Proposal>, p: Proposal, h: Harvesting): Id {
    if TakesOver(held, ps, p, h) then HistoricalId(p) else AnnotationId(p, h)
  }

  /** Answers under two result keys take over one legacy row. */
  ghost predicate Clash(held: map<Id, Row>, ps: seq<Proposal>, h: Harvesting) {
    exists i, k :: 0 <= i < |ps| && 0 <= k < |ps| && TakesOver(held, ps, ps[i], h) && TakesOver(held, ps, ps[k], h)
      && HistoricalId(ps[i]) == HistoricalId(ps[k]) && ps[i].key != ps[k].key
  }

  /** What a legacy row becomes while the batch is harvested: same reader, same record, and the
      standing harness so far. */
  lemma {:induction false} LegacyRowStands(held: map<Id, Row>, ps: seq<Proposal>, h: Harvesting, id: Id)
    requires id in held && id.Historical?
    ensures var after := AfterAll(held, ps, h);
      id in after && after[id].decision.reader == held[id].decision.reader
      && after[id].decision.record == held[id].decision.record
      && after[id].decision.harness == Standing(held, ps, id, h)
  {
    if ps != [] {
      LegacyRowStands(held, ps[..|ps| - 1], h, id);
    }
  }

  lemma {:induction false} NoLegacyRowAppears(held: map<Id, Row>, ps: seq<Proposal>, h: Harvesting, id: Id)
    requires id !in held && id.Historical?
    ensures id !in AfterAll(held, ps, h)
  {
    if ps != [] {
      NoLegacyRowAppears(held, ps[..|ps| - 1], h, id);
    }
  }

  lemma {:induction false} StandingStays(held: map<Id, Row>, ps: seq<Proposal>, h: Harvesting, id: Id, n: nat)
    requires id in held && n <= |ps| && Standing(held, ps[..n], id, h) != ""
    ensures Standing(held, ps, id, h) == Standing(held, ps[..n], id, h)
    decreases |ps|
  {
    if n == |ps| {
      assert ps[..n] == ps;
    } else {
      var front := ps[..|ps| - 1];
      assert front[..n] == ps[..n];
      StandingStays(held, front, h, id, n);
    }
  }

  /** From its own turn on, through the first pass and the second, a proposal resolves to one id. */
  lemma ResolvesAsSettled(held: map<Id, Row>, ps: seq<Proposal>, h: Harvesting, i: nat, n: nat)
    requires i <= n <= |ps| && i < |ps|
    ensures Resolve(AfterAll(held, ps[..n], h), ps[i], h) == Settled(held, ps, ps[i], h)
  {
    var p, id := ps[i], HistoricalId(ps[i]);
    if id in held {
      LegacyRowStands(held, ps[..n], h, id);
      var now := Standing(held, ps[..n], id, h);
      if now != "" {
        StandingStays(held, ps, h, id, n);
      } else if Matches(held, p, h) {
        StillOpen(held, ps, h, i, n);
        assert ps[..i + 1][..i] == ps[..i];
        StandingStays(held, ps, h, id, i + 1);
      }
    } else {
      NoLegacyRowAppears(held, ps[..n], h, id);
    }
  }

  /** A legacy row still without a harness after `n` proposals has not yet met a matching one. */
  lemma {:induction false} StillOpen(held: map<Id, Row>, ps: seq<Proposal>, h: Harvesting, i: nat, n: nat)
    requires i <= n <= |ps| && i < |ps| && Matches(held, ps[i], h)
    requires Standing(held, ps[..n], HistoricalId(ps[i]), h) == ""
    ensures n == i && Standing(held, ps[..i + 1], HistoricalId(ps[i]), h) == h.answered(ps[i].key).harness
    decreases n
  {
    assert ps[..i + 1][..i] == ps[..i];
    if i < n {
      assert ps[..n][..n - 1] == ps[..n - 1];
      assert Standing(held, ps[..n - 1], HistoricalId(ps[i]), h) == "";
      StillOpen(held, ps, h, i, n - 1);
    }
  }

  predicate SaysTheSame(d: Decision, p: Proposal, h: Harvesting) {
    d == Decide(None, p, h).(batches := d.batches)
  }

  lemma OneIdOneDecision(held: map<Id, Row>, ps: seq<Proposal>, h: Harvesting, i: nat, k: nat)
    requires !Clash(held, ps, h) && i < |ps| && k < |ps|
    requires Settled(held, ps, ps[i], h) == Settled(held, ps, ps[k], h)
    ensures ps[i] == ps[k]
  {}

  lemma {:induction false} HeldSaysTheSame(held: map<Id, Row>, ps: seq<Proposal>, h: Harvesting, n: nat, i: nat)
    requires !Clash(held, ps, h) && i < n <= |ps|
    ensures var after, id := AfterAll(held, ps[..n], h), Settled(held, ps, ps[i], h);
      id in after && SaysTheSame(after[id].decision, ps[i], h) && h.batch in after[id].decision.batches
    decreases n
  {
    hide Resolve, Settled, Clash;
    assert ps[..n][..n - 1] == ps[..n - 1];
    ResolvesAsSettled(held, ps, h, n - 1, n - 1);
    if i < n - 1 {
      HeldSaysTheSame(held, ps, h, n - 1, i);
    }
    if Settled(held, ps, ps[i], h) == Settled(held, ps, ps[n - 1], h) {
      OneIdOneDecision(held, ps, h, i, n - 1);
    }
  }

  lemma AlreadyHeld(held: map<Id, Row>, ps: seq<Proposal>, h: Harvesting, i: nat)
    requires !Clash(held, ps, h) && i < |ps|
    ensures Appended(AfterAll(held, ps, h), ps[i], h).None?
  {
    hide Resolve, Settled, Clash;
    var after, p := AfterAll(held, ps, h), ps[i];
    assert ps[..|ps|] == ps;
    ResolvesAsSettled(held, ps, h, i, |ps|);
    HeldSaysTheSame(held, ps, h, |ps|, i);
    var previous := Get(after, Resolve(after, p, h));
    assert previous.value.decision.batches + {h.batch} == previous.value.decision.batches;
  }

  lemma {:induction false} SecondPassWritesNothing(held: map<Id, Row>, ps: seq<Proposal>, h: Harvesting, n: nat)
    requires !Clash(held, ps, h) && n <= |ps|
    ensures RowsOf(AfterAll(held, ps, h), ps[..n], h) == []
    ensures AfterAll(AfterAll(held, ps, h), ps[..n], h) == AfterAll(held, ps, h)
    decreases n
  {
    hide Clash;
    if n > 0 {
      assert ps[..n][..n - 1] == ps[..n - 1];
      SecondPassWritesNothing(held, ps, h, n - 1);
      AlreadyHeld(held, ps, h, n - 1);
    }
  }

  lemma {:induction false} SilentPassHolds(after: map<Id, Row>, ps: seq<Proposal>, h: Harvesting, n: nat)
    requires RowsOf(after, ps, h) == [] && n <= |ps|
    ensures AfterAll(after, ps[..n], h) == after && RowsOf(after, ps[..n], h) == []
    ensures n < |ps| ==> Appended(after, ps[n], h).None?
    decreases |ps| - n
  {
    if n == |ps| {
      assert ps[..n] == ps;
      SilentPrefix(after, ps, h);
    } else {
      SilentPassHolds(after, ps, h, n + 1);
      assert ps[..n + 1][..n] == ps[..n];
    }
  }

  lemma {:induction false} SilentPrefix(after: map<Id, Row>, ps: seq<Proposal>, h: Harvesting)
    requires RowsOf(after, ps, h) == []
    ensures AfterAll(after, ps, h) == after
    ensures ps != [] ==> AfterAll(after, ps[..|ps| - 1], h) == after && RowsOf(after, ps[..|ps| - 1], h) == []
  {
    if ps != [] {
      SilentPrefix(after, ps[..|ps| - 1], h);
    }
  }

  lemma SilentMeansSameKey(held: map<Id, Row>, ps: seq<Proposal>, h: Harvesting, i: nat)
    requires RowsOf(AfterAll(held, ps, h), ps, h) == [] && i < |ps|
    ensures Settled(held, ps, ps[i], h) in AfterAll(held, ps, h)
    ensures AfterAll(held, ps, h)[Settled(held, ps, ps[i], h)].decision.key == Some(ps[i].key)
  {
    hide Resolve, Settled;
    var again := AfterAll(held, ps, h);
    SilentPassHolds(again, ps, h, i);
    assert ps[..|ps|] == ps;
    ResolvesAsSettled(held, ps, h, i, |ps|);
  }

  /** Re-harvesting an unchanged batch appends nothing, from any ledgers, if and only if no two answers
      under different result keys take over one legacy row. */
  lemma ReharvestIsSilentExactlyWhen(j: Journal, ps: seq<Proposal>, h: Harvesting)
    requires RevisionOrder(j)
    ensures var after := j + RowsOf(HeldMap(j), ps, h);
      RowsOf(HeldMap(after), ps, h) == [] <==> !Clash(HeldMap(j), ps, h)
  {
    hide Settled, TakesOver, RevisionOrder;
    var held := HeldMap(j);
    HarvestKeepsOrder(j, ps, h);
    assert ps[..|ps|] == ps;
    if !Clash(held, ps, h) {
      SecondPassWritesNothing(held, ps, h, |ps|);
    } else {
      var i, k :| 0 <= i < |ps| && 0 <= k < |ps| && TakesOver(held, ps, ps[i], h) && TakesOver(held, ps, ps[k], h)
        && HistoricalId(ps[i]) == HistoricalId(ps[k]) && ps[i].key != ps[k].key;
      ClashAppends(held, ps, h, i, k);
    }
  }

  lemma ClashAppends(held: map<Id, Row>, ps: seq<Proposal>, h: Harvesting, i: nat, k: nat)
    requires i < |ps| && k < |ps| && TakesOver(held, ps, ps[i], h) && TakesOver(held, ps, ps[k], h)
    requires HistoricalId(ps[i]) == HistoricalId(ps[k]) && ps[i].key != ps[k].key
    ensures RowsOf(AfterAll(held, ps, h), ps, h) != []
  {
    if RowsOf(AfterAll(held, ps, h), ps, h) == [] {
      SilentMeansSameKey(held, ps, h, i);
      SilentMeansSameKey(held, ps, h, k);
    }
  }

  /** Where no proposal of the batch has a row under its historical id, as in every store begun after
      annotation ids were introduced, re-harvesting always appends nothing. */
  lemma ReharvestIsSilent(j: Journal, ps: seq<Proposal>, h: Harvesting)
    requires RevisionOrder(j) && forall i :: 0 <= i < |ps| ==> HistoricalId(ps[i]) !in HeldMap(j)
    ensures RowsOf(HeldMap(j + RowsOf(HeldMap(j), ps, h)), ps, h) == []
  {
    hide RevisionOrder, HeldMap, RowsOf;
    ReharvestIsSilentExactlyWhen(j, ps, h);
  }

  lemma OneLegacyRow(row: Row)
    requires row.decision.accepted
    ensures HeldMap([row]) == map[row.id := row] && RevisionOrder([row])
  {
    LedgersSnoc([], row);
    assert [] + [row] == [row];
    assert LatestBy<Id, Row>([], Key) == map[];
  }

  /** It can append: a reader that declared no model and the same model declared both answer with the
      record of one legacy claim, under two result keys. Each harvest takes the row back from the
      other. */
  lemma ReharvestCanAppend(p: Proposal, other: string, h: Harvesting, rest: string)
    requires other != p.key && h.answered(other) == h.answered(p.key)
    ensures var held := Decision(true, p.record, h.answered(p.key).reader, "", None, rest, {});
            var legacy := Row(HistoricalId(p), None, held);
            var ps := [p, p.(key := other)];
            RowsOf(HeldMap([legacy] + RowsOf(HeldMap([legacy]), ps, h)), ps, h) != []
  {
    var legacy := Row(HistoricalId(p), None, Decision(true, p.record, h.answered(p.key).reader, "", None, rest, {}));
    var ps := [p, p.(key := other)];
    OneLegacyRow(legacy);
    var held := map[legacy.id := legacy];
    assert ps[..1] == [p] && [p][..0] == [];
    assert Standing(held, [p], legacy.id, h) == h.answered(p.key).harness;
    assert TakesOver(held, ps, ps[0], h) && TakesOver(held, ps, ps[1], h);
    ReharvestIsSilentExactlyWhen([legacy], ps, h);
  }

  // ---------- where the two merges meet again ----------

  ghost predicate MergesDiffer(j: Journal, id: Id) { Current(j, id) != Held(j, id) }

  /** Some proposal of the batch is decided under this id. */
  ghost predicate Decides(held: map<Id, Row>, ps: seq<Proposal>, h: Harvesting, id: Id) {
    exists i :: 0 <= i < |ps| && Settled(held, ps, ps[i], h) == id
  }

  /** A concrete pair: a rejected legacy row and a later legacy claim under one historical id. `harvest`
      compares with the rejection while `current` shows the claim. */
  lemma LegacyPairReadsTwoWays(p: Proposal, reader: Reader, rest: string)
    ensures var id := HistoricalId(p);
      var rejection := Row(id, None, Decision(false, p.record, reader, "", None, rest, {}));
      var claim := Row(id, None, Decision(true, p.record, reader, "", None, rest, {}));
      var j := [rejection, claim];
      && LegacyStart(j) && LegacyShape(j)
      && Held(j, id) == Some(rejection) && Current(j, id) == Some(claim)
  {
    var id := HistoricalId(p);
    var rejection := Row(id, None, Decision(false, p.record, reader, "", None, rest, {}));
    var claim := Row(id, None, Decision(true, p.record, reader, "", None, rest, {}));
    assert [] + [rejection] == [rejection] && [rejection] + [claim] == [rejection, claim];
    LedgersSnoc([], rejection);
    LedgersSnoc([rejection], claim);
    assert LatestBy<Id, Row>([], Key) == map[];
  }

  /** From its own turn on, a proposal's id holds a decision that names a result key. */
  lemma {:induction false} SettledHasKey(held: map<Id, Row>, ps: seq<Proposal>, h: Harvesting, n: nat, i: nat)
    requires i < n <= |ps|
    ensures var after, id := AfterAll(held, ps[..n], h), Settled(held, ps, ps[i], h);
      id in after && after[id].decision.key.Some?
    decreases n
  {
    hide Resolve, Settled;
    assert ps[..n][..n - 1] == ps[..n - 1];
    ResolvesAsSettled(held, ps, h, n - 1, n - 1);
    if i < n - 1 {
      SettledHasKey(held, ps, h, n - 1, i);
    }
  }

  lemma {:induction false} RowsAreDecided(held: map<Id, Row>, ps: seq<Proposal>, h: Harvesting, n: nat)
    requires n <= |ps|
    ensures forall row :: row in RowsOf(held, ps[..n], h) ==> Decides(held, ps, h, row.id)
    decreases n
  {
    hide Resolve, Settled;
    if n > 0 {
      assert ps[..n][..n - 1] == ps[..n - 1];
      ResolvesAsSettled(held, ps, h, n - 1, n - 1);
      RowsAreDecided(held, ps, h, n - 1);
    }
  }

  lemma HeldIsARow(j: Journal, id: Id)
    ensures Held(j, id).Some? ==> Held(j, id).value in j && Held(j, id).value.id == id
  {
    LatestSplit(j, id);
  }

  /** A decided id ends with a revision, so both merges show the row appended last. */
  lemma DecidedIsShown(j: Journal, ps: seq<Proposal>, h: Harvesting, i: nat)
    requires RevisionOrder(j) && LegacyShape(j) && i < |ps|
    ensures var after, id := j + RowsOf(HeldMap(j), ps, h), Settled(HeldMap(j), ps, ps[i], h);
      && id in LatestBy(after, Key) && Rev(LatestBy(after, Key)[id]) > 0
      && LatestBy(after, Key)[id].decision.key.Some?
      && Current(after, id) == Held(after, id) == Some(LatestBy(after, Key)[id])
  {
    hide Settled, RowsOf, AfterAll;
    var held := HeldMap(j);
    var rows, id := RowsOf(held, ps, h), Settled(held, ps, ps[i], h);
    HarvestKeepsOrder(j, ps, h);
    SettledHasKey(held, ps, h, |ps|, i);
    assert ps[..|ps|] == ps;
    HeldMapIs(j + rows, id);
    HeldIsARow(j + rows, id);
    var row := Held(j + rows, id).value;
    assert Rev(row) > 0;
    LatestIsHighest(j + rows, id, row);
    LastWriterWins(j + rows, id);
  }

  lemma UndecidedIsUntouched(j: Journal, ps: seq<Proposal>, h: Harvesting, id: Id)
    requires !Decides(HeldMap(j), ps, h, id)
    ensures var after := j + RowsOf(HeldMap(j), ps, h);
      Current(after, id) == Current(j, id) && Held(after, id) == Held(j, id)
  {
    assert ps[..|ps|] == ps;
    RowsAreDecided(HeldMap(j), ps, h, |ps|);
    Untouched(j, RowsOf(HeldMap(j), ps, h), id);
  }

  /** A proposal that meets a row without a revision is always appended, whatever it decides, and then
      both merges show its decision; unless two result keys contend for the row, word for word. */
  lemma LegacyRowIsReplaced(j: Journal, ps: seq<Proposal>, h: Harvesting, i: nat)
    requires RevisionOrder(j) && LegacyShape(j) && i < |ps|
    ensures var held := HeldMap(j);
      var rows, id := RowsOf(held, ps, h), Settled(held, ps, ps[i], h);
      && Current(j + rows, id) == Held(j + rows, id)
      && (id in held && Rev(held[id]) == 0 ==> exists row :: row in rows && row.id == id)
      && (!Clash(held, ps, h) ==>
            Current(j + rows, id).Some? && SaysTheSame(Current(j + rows, id).value.decision, ps[i], h))
  {
    hide Settled, RowsOf, AfterAll, Clash, SaysTheSame;
    var held := HeldMap(j);
    var rows, id := RowsOf(held, ps, h), Settled(held, ps, ps[i], h);
    DecidedIsShown(j, ps, h, i);
    HarvestKeepsOrder(j, ps, h);
    assert ps[..|ps|] == ps;
    HeldMapIs(j + rows, id);
    if !Clash(held, ps, h) {
      HeldSaysTheSame(held, ps, h, |ps|, i);
    }
    HeldMapIs(j, id);
    var last := LatestBy(j + rows, Key)[id];
    if id in held && Rev(held[id]) == 0 {
      LatestSplit(j + rows, id);
      assert last in j + rows && last.id == id;
      if last in j {
        HeldIsHighest(j, id, last);
      }
    }
  }

  /** A harvest ends the difference exactly at the ids it decides. */
  lemma HarvestEndsDifferenceExactlyWhen(j: Journal, ps: seq<Proposal>, h: Harvesting, id: Id)
    requires RevisionOrder(j) && LegacyShape(j)
    ensures MergesDiffer(j + RowsOf(HeldMap(j), ps, h), id) <==>
      MergesDiffer(j, id) && !Decides(HeldMap(j), ps, h, id)
  {
    hide Settled, RowsOf, HeldMap, Held, Current;
    if Decides(HeldMap(j), ps, h, id) {
      var i :| 0 <= i < |ps| && Settled(HeldMap(j), ps, ps[i], h) == id;
      DecidedIsShown(j, ps, h, i);
    } else {
      UndecidedIsUntouched(j, ps, h, id);
    }
  }

  /** Some harvest of the run decides this id. */
  ghost predicate RunDecides(j: Journal, calls: seq<Call>, id: Id) {
    exists n :: 0 <= n < |calls| && Decides(HeldMap(AfterHarvests(j, calls[..n])), calls[n].proposals, calls[n].h, id)
  }

  /** Over every run from a legacy start: the two merges differ on an id at the end if and only if they
      differed at the start and no harvest of the run decided the id. */
  lemma {:induction false} MergesMeetExactlyWhenDecided(j: Journal, calls: seq<Call>, id: Id)
    requires LegacyStart(j) && LegacyShape(j)
    ensures MergesDiffer(AfterHarvests(j, calls), id) <==> MergesDiffer(j, id) && !RunDecides(j, calls, id)
  {
    hide MergesDiffer, Decides, HeldMap, RowsOf;
    if calls != [] {
      var last := |calls| - 1;
      var before, call := AfterHarvests(j, calls[..last]), calls[last];
      MergesMeetExactlyWhenDecided(j, calls[..last], id);
      RunsKeepOrder(j, calls[..last]);
      HarvestEndsDifferenceExactlyWhen(before, call.proposals, call.h, id);
      RunDecidesSnoc(j, calls, id);
    }
  }

  lemma RunDecidesSnoc(j: Journal, calls: seq<Call>, id: Id)
    requires calls != []
    ensures var last := |calls| - 1;
      RunDecides(j, calls, id) <==>
        || RunDecides(j, calls[..last], id)
        || Decides(HeldMap(AfterHarvests(j, calls[..last])), calls[last].proposals, calls[last].h, id)
  {
    hide Decides, HeldMap, AfterHarvests;
    var last := |calls| - 1;
    forall n | 0 <= n < last ensures calls[..last][..n] == calls[..n] {}
  }

  // ---------- what a harvest records ----------

  /** The decision is the gate's verdict on this proposal, under the reader and harness that answered. */
  ghost predicate Records(d: Decision, p: Proposal, h: Harvesting) {
    && (d.accepted, d.rest) == (h.judge(p).accepted, h.judge(p).rest)
    && (d.record, d.key) == (p.record, Some(p.key))
    && (d.reader, d.harness) == (h.answered(p.key).reader, h.answered(p.key).harness)
  }

  /** The batches of the id's decision before the harvest. */
  function EarlierBatches(held: map<Id, Row>, id: Id): set<Batch> {
    if id in held then held[id].decision.batches else {}
  }

  lemma {:induction false} BatchesGrow(held: map<Id, Row>, ps: seq<Proposal>, h: Harvesting, n: nat, id: Id)
    requires n <= |ps|
    ensures var after := AfterAll(held, ps[..n], h);
      EarlierBatches(after, id) == EarlierBatches(held, id)
        + if exists k :: 0 <= k < n && Settled(held, ps, ps[k], h) == id then {h.batch} else {}
    decreases n
  {
    hide Resolve, Settled;
    if n > 0 {
      assert ps[..n][..n - 1] == ps[..n - 1];
      BatchesGrow(held, ps, h, n - 1, id);
      ResolvesAsSettled(held, ps, h, n - 1, n - 1);
    } else {
      assert ps[..0] == [];
    }
  }

  /** The last proposal decided under an id is what is held there. */
  lemma {:induction false} LastDecides(held: map<Id, Row>, ps: seq<Proposal>, h: Harvesting, n: nat, i: nat)
    requires i < n <= |ps|
    requires forall k :: i < k < n ==> Settled(held, ps, ps[k], h) != Settled(held, ps, ps[i], h)
    ensures var after, id := AfterAll(held, ps[..n], h), Settled(held, ps, ps[i], h);
      id in after && Records(after[id].decision, ps[i], h)
    decreases n
  {
    hide Resolve, Settled, Records, Decide;
    assert ps[..n][..n - 1] == ps[..n - 1];
    ResolvesAsSettled(held, ps, h, n - 1, n - 1);
    DecidedRecords(AfterAll(held, ps[..n - 1], h), ps[n - 1], h);
    if i < n - 1 {
      LastDecides(held, ps, h, n - 1, i);
      UndecidedStays(AfterAll(held, ps[..n - 1], h), ps[n - 1], h, Settled(held, ps, ps[i], h));
    }
    hide Appended, AfterOne;
  }

  lemma DecidedRecords(held: map<Id, Row>, p: Proposal, h: Harvesting)
    ensures var after, id := AfterOne(held, p, h), Resolve(held, p, h);
      id in after && Records(after[id].decision, p, h)
  {
    hide Resolve;
  }

  lemma UndecidedStays(held: map<Id, Row>, p: Proposal, h: Harvesting, id: Id)
    requires Resolve(held, p, h) != id
    ensures Get(AfterOne(held, p, h), id) == Get(held, id)
  {
    hide Resolve, Decide;
  }

  ghost predicate DecidesLast(held: map<Id, Row>, ps: seq<Proposal>, h: Harvesting, id: Id, i: int) {
    0 <= i < |ps| && Settled(held, ps, ps[i], h) == id && forall k :: i < k < |ps| ==> Settled(held, ps, ps[k], h) != id
  }

  /** After a harvest an id it decided holds the verdict on the last proposal decided there, and the
      answer batches it had, with this one; every other id holds what it held. */
  lemma HarvestRecords(j: Journal, ps: seq<Proposal>, h: Harvesting, id: Id)
    requires RevisionOrder(j)
    ensures var held, after := HeldMap(j), HeldMap(j + RowsOf(HeldMap(j), ps, h));
      && (forall i :: DecidesLast(held, ps, h, id, i) ==> id in after && Records(after[id].decision, ps[i], h))
      && (Decides(held, ps, h, id) ==> EarlierBatches(after, id) == EarlierBatches(held, id) + {h.batch})
      && (!Decides(held, ps, h, id) ==> Get(after, id) == Get(held, id))
  {
    var held := HeldMap(j);
    HarvestKeepsOrder(j, ps, h);
    assert ps[..|ps|] == ps;
    BatchesGrow(held, ps, h, |ps|, id);
    if !Decides(held, ps, h, id) {
      UndecidedIsUntouched(j, ps, h, id);
      HeldMapIs(j, id);
      HeldMapIs(j + RowsOf(held, ps, h), id);
    }
    hide Settled, HeldMap, RowsOf, AfterAll, Records, EarlierBatches, RevisionOrder;
    forall i | DecidesLast(held, ps, h, id, i)
      ensures var after := AfterAll(held, ps, h); id in after && Records(after[id].decision, ps[i], h)
    {
      LastDecides(held, ps, h, |ps|, i);
    }
  }

  // ---------- revisions count ----------

  function Under(id: Id): Row -> bool { (row: Row) => row.id == id }

  function HeldRevision(held: map<Id, Row>, id: Id): int { if id in held then Rev(held[id]) else 0 }

  /** The k-th row appended for an id since the start has revision k, and what is held is the last. */
  ghost predicate Numbered(start: Journal, rows: seq<Row>) {
    InTurn(rows) && HeldInTurn(HeldMap(start + rows), rows)
  }

  lemma NextRevision(held: map<Id, Row>, p: Proposal, h: Harvesting)
    ensures var row := Appended(held, p, h);
      row.Some? ==> Rev(row.value) == HeldRevision(held, row.value.id) + 1
  {
    hide Resolve, Decide;
  }

  lemma CountSnoc(rows: seq<Row>, row: Row, id: Id)
    ensures Count(rows + [row], Under(id)) == Count(rows, Under(id)) + if row.id == id then 1 else 0
  {
    assert (rows + [row])[..|rows|] == rows;
  }

  /** What `Numbered` says of the rows, and of what is held. */
  ghost predicate InTurn(rows: seq<Row>) {
    forall i :: 0 <= i < |rows| ==> Rev(rows[i]) == Count(rows[..i + 1], Under(rows[i].id))
  }

  ghost predicate HeldInTurn(held: map<Id, Row>, rows: seq<Row>) {
    forall id :: HeldRevision(held, id) == Count(rows, Under(id))
  }

  lemma OneMoreInTurn(held: map<Id, Row>, rows: seq<Row>, row: Row)
    requires InTurn(rows) && HeldInTurn(held, rows) && Rev(row) == HeldRevision(held, row.id) + 1
    ensures InTurn(rows + [row]) && HeldInTurn(held[row.id := row], rows + [row])
  {
    var more := rows + [row];
    hide Rev;
    forall id ensures Count(more, Under(id)) == Count(rows, Under(id)) + if row.id == id then 1 else 0 {
      CountSnoc(rows, row, id);
    }
    hide Count;
    forall i | 0 <= i < |more| ensures Rev(more[i]) == Count(more[..i + 1], Under(more[i].id)) {
      if i < |rows| {
        assert more[..i + 1] == rows[..i + 1] && more[i] == rows[i];
      } else {
        assert more[..i + 1] == more && more[i] == row;
      }
    }
  }

  lemma NumberedSnoc(start: Journal, rows: seq<Row>, p: Proposal, h: Harvesting)
    requires Numbered(start, rows) && RevisionOrder(start + rows)
    ensures var row := Appended(HeldMap(start + rows), p, h);
      row.Some? ==> Numbered(start, rows + [row.value])
  {
    var held := HeldMap(start + rows);
    var appended := Appended(held, p, h);
    if appended.Some? {
      OneKeepsOrder(start + rows, p, h);
      NextRevision(held, p, h);
      assert start + rows + [appended.value] == start + (rows + [appended.value]);
      assert HeldMap(start + (rows + [appended.value])) == held[appended.value.id := appended.value];
      OneMoreInTurn(held, rows, appended.value);
      hide HeldMap, RevisionOrder, Appended, AfterOne, Rev, Count, HeldRevision;
    }
  }

  lemma OneMoreNumbered(start: Journal, rows: seq<Row>, before: seq<Row>, now: map<Id, Row>, p: Proposal, h: Harvesting)
    requires Numbered(start, rows + before) && InStep(start + rows, before, now)
    ensures var row := Appended(now, p, h);
      Numbered(start, rows + (before + if row.Some? then [row.value] else []))
  {
    hide Numbered, RevisionOrder, HeldMap, Appended, Rev;
    assert start + (rows + before) == (start + rows) + before;
    NumberedSnoc(start, rows + before, p, h);
    var row := Appended(now, p, h);
    assert rows + (before + []) == rows + before;
    if row.Some? {
      assert rows + (before + [row.value]) == (rows + before) + [row.value];
    }
  }

  lemma {:induction false} HarvestNumbers(start: Journal, rows: seq<Row>, ps: seq<Proposal>, h: Harvesting)
    requires Numbered(start, rows) && RevisionOrder(start + rows)
    ensures Numbered(start, rows + RowsOf(HeldMap(start + rows), ps, h))
  {
    var held := HeldMap(start + rows);
    if ps == [] {
      assert rows + [] == rows;
    } else {
      var front, last := ps[..|ps| - 1], ps[|ps| - 1];
      HarvestNumbers(start, rows, front, h);
      HarvestKeepsOrder(start + rows, front, h);
      HarvestLast(held, ps, h);
      hide *;
      OneMoreNumbered(start, rows, RowsOf(held, front, h), AfterAll(held, front, h), last, h);
    }
  }

  lemma {:induction false} RunsNumber(j: Journal, calls: seq<Call>)
    requires LegacyStart(j)
    ensures j <= AfterHarvests(j, calls) && Numbered(j, AfterHarvests(j, calls)[|j|..])
  {
    if calls == [] {
      NothingNumbered(j);
      assert j[|j|..] == [];
    } else {
      hide *;
      var before, call := AfterHarvests(j, calls[..|calls| - 1]), calls[|calls| - 1];
      RunsNumber(j, calls[..|calls| - 1]);
      RunsKeepOrder(j, calls[..|calls| - 1]);
      LastHarvest(j, calls);
      HarvestGoesOn(j, before, call.proposals, call.h);
    }
  }

  lemma HarvestGoesOn(j: Journal, before: Journal, ps: seq<Proposal>, h: Harvesting)
    requires j <= before && Numbered(j, before[|j|..]) && RevisionOrder(before)
    ensures var after := before + RowsOf(HeldMap(before), ps, h); j <= after && Numbered(j, after[|j|..])
  {
    hide *;
    var rows, added := before[|j|..], RowsOf(HeldMap(before), ps, h);
    assert before == j + rows;
    HarvestNumbers(j, rows, ps, h);
    assert (before + added)[|j|..] == rows + added;
  }

  lemma LastHarvest(j: Journal, calls: seq<Call>)
    requires calls != []
    ensures var before, call := AfterHarvests(j, calls[..|calls| - 1]), calls[|calls| - 1];
      AfterHarvests(j, calls) == before + RowsOf(HeldMap(before), call.proposals, call.h)
  {
    hide HeldMap, RowsOf;
  }

  lemma NothingNumbered(j: Journal)
    requires LegacyStart(j)
    ensures Numbered(j, [])
  {
    assert j + [] == j;
    forall id ensures HeldRevision(HeldMap(j), id) == 0 {
      HeldIsARow(j, id);
      HeldMapIs(j, id);
    }
  }

  /** Over every run of harvests from a legacy start, the k-th row appended for an id has revision k. */
  lemma RevisionCountsRows(j: Journal, calls: seq<Call>, i: nat)
    requires LegacyStart(j) && |j| <= i < |AfterHarvests(j, calls)|
    ensures var after := AfterHarvests(j, calls);
      Rev(after[i]) == Count(after[|j|..i + 1], Under(after[i].id))
  {
    RunsNumber(j, calls);
    var rows := AfterHarvests(j, calls)[|j|..];
    assert rows[..i - |j| + 1] == AfterHarvests(j, calls)[|j|..i + 1];
    hide AfterHarvests, HeldMap;
  }
}
