/** What every run of writing, draining and re-judging keeps, and what a reader may conclude from it. */
module ModelQueueLaws {
  import opened Seqs
  import opened JsonShape
  import opened ModelQueue
  import opened ModelQueueRequests

  // ---------- runs ----------

  /** Between calls the disk may change in any way: files lost, damaged or restored. */
  datatype Step = Writing(units: seq<Unit>) | Draining(d: DrainCall) | Rejudging(j: RejudgeCall)
                | Disturbing(disk: map<string, string>)

  function After(review: bool, s: State, step: Step): State {
    match step
    case Writing(units) => s.(requests := WriteFrom(review, s.requests, units, 0, 0).0)
    case Draining(d) => AfterDrain(s, d)
    case Rejudging(j) => AfterRejudge(s, j)
    case Disturbing(disk) => s.(disk := disk)
  }

  function Run(review: bool, steps: seq<Step>): State {
    if steps == [] then State([], [], map[]) else After(review, Run(review, steps[..|steps| - 1]), steps[|steps| - 1])
  }

  // ---------- the invariant ----------

  /** What the backend reported, when that alone decided the verdict. */
  function Reported(r: Report): Option<string> {
    if Truthy(r.failure) then r.failure
    else if r.refused then Some(REFUSED)
    else if r.truncated then Some(TRUNCATED)
    else None
  }

  ghost predicate Consistent(row: Row) {
    && row.key.call == row.call && row.key.backend == row.backend
    && row.model == (if row.key.reader != "" then row.key.reader else row.report.model)
    && row.ok == row.verdict.failure.None?
    && (row.verdict.failure.Some? ==> row.verdict.output == Null)
    && (row.rawSha.Some? <==> row.rawPath.Some?)
    && (row.verdict.failure == Some(PROMPT_MISMATCH)
        || if Reported(row.report).Some? then row.verdict.failure == Reported(row.report)
           else MayReopen(row.verdict.failure))
  }

  ghost predicate Asking(requests: seq<Request>, row: Row) {
    && Find(requests, row.call).Some?
    && (row.promptSha.Some? && row.promptSha.value != Find(requests, row.call).value.first.promptSha
        ==> row.verdict.failure == Some(PROMPT_MISMATCH))
  }

  /** Attempts of each reader at each call are numbered 1, 2, 3, … in the order they were made. */
  ghost predicate Numbered(rows: seq<Row>) {
    forall i :: 0 <= i < |rows| && IsOriginal(rows[i]) ==>
      rows[i].attempt == EarlierAttempts(rows[..i], rows[i].key) + 1
  }

  ghost predicate Follows(rows: seq<Row>, i: nat)
    requires i < |rows|
  {
    exists j :: 0 <= j < i && IsOriginal(rows[j]) && PhysicalOf(rows[j]) == PhysicalOf(rows[i])
  }

  ghost predicate Followed(rows: seq<Row>) {
    forall i :: 0 <= i < |rows| && !IsOriginal(rows[i]) ==> Follows(rows, i)
  }

  ghost predicate FirstRows(requests: seq<Request>, rows: seq<Row>) {
    forall i :: 0 <= i < |rows| && IsOriginal(rows[i]) ==> Consistent(rows[i]) && Asking(requests, rows[i])
  }

  ghost predicate Good(s: State) {
    Numbered(s.results) && Followed(s.results) && FirstRows(Requests(s.requests), s.results)
  }

  // ---------- writing keeps it ----------

  lemma WritingKeepsGood(review: bool, s: State, units: seq<Unit>)
    requires Good(s)
    ensures Good(After(review, s, Writing(units)))
  {
    var next := WriteFrom(review, s.requests, units, 0, 0).0;
    forall i | 0 <= i < |s.results| && IsOriginal(s.results[i]) ensures Asking(Requests(next), s.results[i]) {
      WriteGrows(review, s.requests, units, 0, 0, s.results[i].call);
    }
  }

  // ---------- draining keeps it ----------

  lemma {:induction false} FilterCalls(keep: Request -> bool, rs: seq<Request>)
    requires CallsDistinct(rs)
    ensures CallsDistinct(Filter(keep, rs)) && Subset(Filter(keep, rs), rs)
  {
    if rs != [] {
      var rest := rs[1..];
      assert forall i :: 0 <= i < |rest| ==> rest[i] == rs[i + 1];
      FilterCalls(keep, rest);
      var u := Filter(keep, rest);
      forall i | 0 <= i < |u| ensures u[i].first.call != rs[0].first.call && u[i] in rs {
        assert u[i] in rest;
        var j :| 0 <= j < |rest| && rest[j] == u[i];
      }
    }
  }

  function Chosen(s: State, d: DrainCall): seq<Request> {
    ChosenOf(d, PendingOf(Requests(s.requests), s.results, d.reader, d.retry))
  }

  lemma ChosenCalls(s: State, d: DrainCall)
    ensures CallsDistinct(Chosen(s, d)) && Subset(Chosen(s, d), Requests(s.requests))
  {
    var requests := Requests(s.requests);
    var shown := Read(requests, Selection(Some(d.reader.backend), None), s.results).shown;
    RequestsDistinct(s.requests);
    FilterCalls(r => Waits(shown, d.reader, d.retry, r), requests);
    var pending := PendingOf(requests, s.results, d.reader, d.retry);
    FilterCalls(r => Wanted(d, r), pending);
    forall i | 0 <= i < |Chosen(s, d)| ensures Chosen(s, d)[i] in requests {
      assert Chosen(s, d)[i] in pending;
    }
  }

  lemma AnswerIsConsistent(d: DrainCall, earlier: nat, r: Request)
    ensures var row := AnswerRow(d, earlier, r);
            Consistent(row) && IsOriginal(row) && row.key == KeyFor(r, d.reader) && row.attempt == earlier + 1
    ensures var row := AnswerRow(d, earlier, r);
            row.promptSha.Some? && row.promptSha.value != r.first.promptSha ==>
              row.verdict.failure == Some(PROMPT_MISMATCH)
  {}

  lemma {:induction false} NoAttempts(rows: seq<Row>, key: Key)
    requires forall i :: 0 <= i < |rows| ==> rows[i].key != key
    ensures EarlierAttempts(rows, key) == 0
  {
    if rows != [] {
      NoAttempts(rows[..|rows| - 1], key);
    }
  }

  lemma AnswersNumbered(d: DrainCall, rows: seq<Row>, chosen: seq<Request>, k: nat)
    requires CallsDistinct(chosen) && k < |chosen|
    ensures var all := rows + Answers(d, rows, chosen);
            all[|rows| + k].attempt == EarlierAttempts(all[..|rows| + k], all[|rows| + k].key) + 1
  {
    var answers := Answers(d, rows, chosen);
    var key := KeyFor(chosen[k], d.reader);
    assert (rows + answers)[..|rows| + k] == rows + answers[..k];
    CountConcat(rows, answers[..k], row => IsAttempt(key, row));
    NoAttempts(answers[..k], key);
  }

  lemma DrainingKeepsGood(s: State, d: DrainCall)
    requires Good(s)
    ensures Good(AfterDrain(s, d))
  {
    hide AnswerRow, EarlierAttempts, Consistent, PendingOf, ChosenOf, Asking, Find;
    var requests, rows, chosen := Requests(s.requests), s.results, Chosen(s, d);
    var all := AfterDrain(s, d).results;
    ChosenCalls(s, d);
    forall i | |rows| <= i < |all|
      ensures IsOriginal(all[i]) && Consistent(all[i]) && Asking(requests, all[i])
      ensures all[i].attempt == EarlierAttempts(all[..i], all[i].key) + 1
    {
      AnswersNumbered(d, rows, chosen, i - |rows|);
      AnswerAsked(s, d, i - |rows|);
    }
    forall i | 0 <= i < |rows| ensures all[i] == rows[i] && all[..i] == rows[..i] {}
    FollowedKept(rows, all);
  }

  lemma AnswerAsked(s: State, d: DrainCall, k: nat)
    requires k < |Chosen(s, d)|
    ensures var row := Answers(d, s.results, Chosen(s, d))[k];
            IsOriginal(row) && Consistent(row) && Asking(Requests(s.requests), row)
  {
    ChosenCalls(s, d);
    RequestsDistinct(s.requests);
    var r, requests := Chosen(s, d)[k], Requests(s.requests);
    assert r in requests;
    var at :| 0 <= at < |requests| && requests[at] == r;
    AtIs(requests, at);
    AnswerIsConsistent(d, EarlierAttempts(s.results, KeyFor(r, d.reader)), r);
  }

  lemma FollowedKept(rows: seq<Row>, all: seq<Row>)
    requires Followed(rows) && |rows| <= |all| && all[..|rows|] == rows
    ensures forall i :: 0 <= i < |rows| && !IsOriginal(all[i]) ==> Follows(all, i)
  {
    forall i | 0 <= i < |rows| && !IsOriginal(all[i]) ensures Follows(all, i) {
      assert all[i] == rows[i] && Follows(rows, i);
      var j :| 0 <= j < i && IsOriginal(rows[j]) && PhysicalOf(rows[j]) == PhysicalOf(rows[i]);
      assert all[j] == rows[j];
    }
  }

  // ---------- what a shown row rests on ----------

  /** The first judgement behind a shown row, and what it forbids. */
  ghost predicate Behind(origin: Row, key: Key, held: Row) {
    && IsOriginal(origin) && origin.key == key && held.key == key
    && PhysicalOf(origin) == PhysicalOf(held)
    && (!MayReopen(origin.verdict.failure) ==>
          !held.ok && held.verdict.output == Null
          && held.verdict.failure in {origin.verdict.failure, Some(PROMPT_MISMATCH)})
  }

  ghost predicate Sourced(rows: seq<Row>, key: Key, held: Row) {
    exists o :: 0 <= o < |rows| && Behind(rows[o], key, held)
  }

  ghost predicate OriginsAre(rows: seq<Row>, sel: Selection, origins: map<Physical, Row>) {
    && (forall p :: p in origins ==> IsOriginal(origins[p]) && PhysicalOf(origins[p]) == p && origins[p] in rows)
    && (forall j :: 0 <= j < |rows| && IsOriginal(rows[j]) && Selected(sel, rows[j]) ==> PhysicalOf(rows[j]) in origins)
  }

  lemma SeeOrigins(requests: seq<Request>, sel: Selection, seen: Seen, row: Row)
    ensures See(requests, sel, seen, row).origins ==
      if Selected(sel, row) && IsOriginal(row) then seen.origins[PhysicalOf(row) := row] else seen.origins
  {
    hide Marked, AsFirstJudged;
  }

  lemma {:induction false} OriginsHold(requests: seq<Request>, sel: Selection, rows: seq<Row>)
    ensures OriginsAre(rows, sel, Read(requests, sel, rows).origins)
  {
    hide See, PhysicalOf, Selected, IsOriginal;
    if rows != [] {
      var front, row := rows[..|rows| - 1], rows[|rows| - 1];
      OriginsHold(requests, sel, front);
      SeeOrigins(requests, sel, Read(requests, sel, front), row);
      assert rows == front + [row];
    }
  }

  lemma MarkedKeeps(requests: seq<Request>, row: Row)
    ensures var m := Marked(requests, row);
            m.key == row.key && PhysicalOf(m) == PhysicalOf(row) && m.rejudgedFrom == row.rejudgedFrom
            && (!row.ok && row.verdict.output == Null ==> !m.ok && m.verdict.output == Null)
            && m.verdict.failure in {row.verdict.failure, Some(PROMPT_MISMATCH)}
  {
    hide Find;
  }

  lemma FirstJudgedKeeps(row: Row, origin: Row)
    ensures var m := AsFirstJudged(row, origin);
            m.key == row.key && PhysicalOf(m) == PhysicalOf(row)
            && (!MayReopen(origin.verdict.failure) ==>
                  !m.ok && m.verdict.output == Null && m.verdict.failure == origin.verdict.failure)
  {}

  lemma FollowedFront(rows: seq<Row>)
    requires Followed(rows) && rows != []
    ensures Followed(rows[..|rows| - 1])
  {
    hide PhysicalOf;
    var front := rows[..|rows| - 1];
    forall i | 0 <= i < |front| && !IsOriginal(front[i]) ensures Follows(front, i) {
      assert Follows(rows, i);
      var j :| 0 <= j < i && IsOriginal(rows[j]) && PhysicalOf(rows[j]) == PhysicalOf(rows[i]);
      assert front[j] == rows[j];
    }
  }

  lemma {:induction false} ShownIsSourced(requests: seq<Request>, sel: Selection, rows: seq<Row>)
    requires Followed(rows) && FirstRows(requests, rows)
    ensures forall k :: k in Read(requests, sel, rows).shown ==> Sourced(rows, k, Read(requests, sel, rows).shown[k])
  {
    hide Marked, AsFirstJudged, PhysicalOf, Behind, Consistent, Asking;
    if rows != [] {
      var front, row := rows[..|rows| - 1], rows[|rows| - 1];
      FollowedFront(rows);
      ShownIsSourced(requests, sel, front);
      forall k | k in Read(requests, sel, front).shown ensures Sourced(rows, k, Read(requests, sel, front).shown[k]) {
        assert Sourced(front, k, Read(requests, sel, front).shown[k]);
        var o :| 0 <= o < |front| && Behind(front[o], k, Read(requests, sel, front).shown[k]);
        assert rows[o] == front[o];
      }
      if Selected(sel, row) {
        LastIsSourced(requests, sel, rows);
      }
    }
  }

  lemma LastIsSourced(requests: seq<Request>, sel: Selection, rows: seq<Row>)
    requires rows != [] && Followed(rows) && FirstRows(requests, rows) && Selected(sel, rows[|rows| - 1])
    ensures var front, row := rows[..|rows| - 1], rows[|rows| - 1];
            var seen := Read(requests, sel, front);
            if IsOriginal(row) then Sourced(rows, row.key, Marked(requests, row))
            else PhysicalOf(row) in seen.origins &&
                 var origin := seen.origins[PhysicalOf(row)];
                 Sourced(rows, origin.key, Marked(requests, AsFirstJudged(row.(key := origin.key), origin)))
  {
    hide Marked, AsFirstJudged, See, PhysicalOf, Selected, Behind;
    var front, row := rows[..|rows| - 1], rows[|rows| - 1];
    OriginsHold(requests, sel, front);
    var seen := Read(requests, sel, front);
    if IsOriginal(row) {
      OriginalStands(requests, row);
    } else {
      assert Follows(rows, |rows| - 1);
      var j :| 0 <= j < |rows| - 1 && IsOriginal(rows[j]) && PhysicalOf(rows[j]) == PhysicalOf(row);
      assert front[j] == rows[j];
      SamePhysical(sel, rows[j], row);
      var origin := seen.origins[PhysicalOf(row)];
      assert origin in front;
      var o :| 0 <= o < |front| && front[o] == origin;
      ReadingStands(requests, row, rows[o]);
    }
  }

  lemma OriginalStands(requests: seq<Request>, row: Row)
    requires IsOriginal(row) && Consistent(row)
    ensures Behind(row, row.key, Marked(requests, row))
  {
    hide Marked, PhysicalOf;
    MarkedKeeps(requests, row);
  }

  lemma ReadingStands(requests: seq<Request>, row: Row, origin: Row)
    requires IsOriginal(origin) && PhysicalOf(origin) == PhysicalOf(row)
    ensures Behind(origin, origin.key, Marked(requests, AsFirstJudged(row.(key := origin.key), origin)))
  {
    hide Marked, AsFirstJudged;
    FirstJudgedKeeps(row.(key := origin.key), origin);
    MarkedKeeps(requests, AsFirstJudged(row.(key := origin.key), origin));
  }

  lemma SamePhysical(sel: Selection, a: Row, b: Row)
    requires PhysicalOf(a) == PhysicalOf(b)
    ensures Selected(sel, a) <==> Selected(sel, b)
  {}

  // ---------- the original behind a row is unique ----------

  lemma {:induction false} AttemptsGrow(rows: seq<Row>, i: nat, j: nat)
    requires i < j <= |rows| && IsOriginal(rows[i])
    ensures EarlierAttempts(rows[..j], rows[i].key) >= EarlierAttempts(rows[..i], rows[i].key) + 1
    decreases j
  {
    assert rows[..j][..j - 1] == rows[..j - 1];
    if j > i + 1 {
      AttemptsGrow(rows, i, j - 1);
    }
  }

  lemma AttemptIsUnique(rows: seq<Row>, i: nat, j: nat)
    requires Numbered(rows) && i < |rows| && j < |rows| && IsOriginal(rows[i]) && IsOriginal(rows[j])
    requires rows[i].key == rows[j].key && rows[i].attempt == rows[j].attempt
    ensures i == j
  {
    hide EarlierAttempts;
    if i < j {
      AttemptsGrow(rows, i, j);
    } else if j < i {
      AttemptsGrow(rows, j, i);
    }
  }

  lemma {:induction false} OriginalsAre(rows: seq<Row>)
    ensures forall id :: id in OriginalsOf(rows) ==>
      IsOriginal(OriginalsOf(rows)[id]) && OriginalId(OriginalsOf(rows)[id]) == id && OriginalsOf(rows)[id] in rows
    ensures forall j :: 0 <= j < |rows| && IsOriginal(rows[j]) ==> OriginalId(rows[j]) in OriginalsOf(rows)
  {
    if rows != [] {
      OriginalsAre(rows[..|rows| - 1]);
      assert rows == rows[..|rows| - 1] + [rows[|rows| - 1]];
    }
  }

  lemma TheOrigin(rows: seq<Row>, o: nat, key: Key, held: Row)
    requires Numbered(rows) && o < |rows| && Behind(rows[o], key, held)
    ensures OriginOf(OriginalsOf(rows), held) == rows[o]
  {
    OriginalsAre(rows);
    assert OriginalId(rows[o]) == OriginalId(held);
    var found := OriginalsOf(rows)[OriginalId(held)];
    var i :| 0 <= i < |rows| && rows[i] == found;
    AttemptIsUnique(rows, i, o);
  }

  // ---------- re-judging keeps it ----------

  /** A re-reading of an answer in the ledger. */
  ghost predicate IsReading(rows: seq<Row>, row: Row) {
    !IsOriginal(row) && exists o :: 0 <= o < |rows| && IsOriginal(rows[o]) && PhysicalOf(rows[o]) == PhysicalOf(row)
  }

  ghost predicate AllReadings(rows: seq<Row>, more: seq<Row>) {
    forall i :: 0 <= i < |more| ==> IsReading(rows, more[i])
  }

  lemma RereadKeeps(j: RejudgeCall, request: Request, held: Row, origin: Row, body: string)
    requires Behind(origin, held.key, held) && Consistent(origin) && request.first.call == held.call
    ensures var row := Reread(j, request, held, origin, body);
            !IsOriginal(row) && PhysicalOf(row) == PhysicalOf(held) && row.key == held.key
            && row.promptSha == origin.promptSha && row.rawPath == held.rawPath && row.facts == held.facts
            && row.report.model == origin.report.model
  {
    hide Classify, MayReopen, Reported;
  }

  lemma RejudgedIsReading(j: RejudgeCall, requests: seq<Request>, disk: map<string, string>, rows: seq<Row>, held: Row)
    requires Numbered(rows) && FirstRows(requests, rows) && Sourced(rows, held.key, held)
    ensures var row := RejudgedRow(j, requests, disk, OriginalsOf(rows), held);
            row.Some? ==> IsReading(rows, row.value) && row.value.key == held.key
                          && PhysicalOf(row.value) == PhysicalOf(held)
  {
    hide Reread, OriginOf, Consistent, Asking;
    if Readable(requests, disk, held) {
      var o :| 0 <= o < |rows| && Behind(rows[o], held.key, held);
      TheOrigin(rows, o, held.key, held);
      RereadKeeps(j, Find(requests, held.call).value, held, rows[o], disk[held.rawPath.value]);
    }
  }

  lemma {:induction false} RereadingsAreReadings(j: RejudgeCall, requests: seq<Request>, disk: map<string, string>,
                                                 rows: seq<Row>, shown: map<Key, Row>, order: seq<Key>)
    requires Numbered(rows) && FirstRows(requests, rows)
    requires forall k :: k in order ==> k in shown
    requires forall k :: k in shown ==> Sourced(rows, k, shown[k])
    ensures var more := Rereadings(j, requests, disk, OriginalsOf(rows), shown, order);
            AllReadings(rows, more)
  {
    hide RejudgedRow, IsReading, FirstRows, Numbered;
    if order != [] {
      var n := |order| - 1;
      RereadingsAreReadings(j, requests, disk, rows, shown, order[..n]);
      assert Sourced(rows, order[n], shown[order[n]]);
      RejudgedIsReading(j, requests, disk, rows, shown[order[n]]);
    }
  }

  lemma NewAreReadings(s: State, j: RejudgeCall)
    requires Good(s)
    ensures var more := RejudgedRows(j, Requests(s.requests), s.disk, s.results);
            AllReadings(s.results, more)
  {
    hide Sourced, AllReadings, Numbered, FirstRows, Followed;
    var requests, sel := Requests(s.requests), Selection(j.backend, None);
    OrderIsShown(requests, sel, s.results);
    ShownIsSourced(requests, sel, s.results);
    var seen := Read(requests, sel, s.results);
    RereadingsAreReadings(j, requests, s.disk, s.results, seen.shown, seen.order);
  }

  lemma ReadingsKeepGood(s: State, more: seq<Row>)
    requires Good(s) && AllReadings(s.results, more)
    ensures Good(s.(results := s.results + more))
  {
    hide EarlierAttempts, Consistent, Asking;
    var rows, all := s.results, s.results + more;
    forall i | |rows| <= i < |all| ensures !IsOriginal(all[i]) {
      assert IsReading(rows, more[i - |rows|]);
    }
    forall i | 0 <= i < |rows| ensures all[i] == rows[i] && all[..i] == rows[..i] {}
    FollowedKept(rows, all);
    forall i | |rows| <= i < |all| ensures Follows(all, i) {
      assert IsReading(rows, more[i - |rows|]);
      var o :| 0 <= o < |rows| && IsOriginal(rows[o]) && PhysicalOf(rows[o]) == PhysicalOf(all[i]);
      assert all[o] == rows[o];
    }
  }

  lemma {:induction false} RunIsGood(review: bool, steps: seq<Step>)
    ensures Good(Run(review, steps))
  {
    hide Good;
    if steps == [] {
      StartIsGood();
    } else {
      var s := Run(review, steps[..|steps| - 1]);
      RunIsGood(review, steps[..|steps| - 1]);
      match steps[|steps| - 1]
      case Writing(units) => WritingKeepsGood(review, s, units);
      case Draining(d) => DrainingKeepsGood(s, d);
      case Rejudging(j) =>
        NewAreReadings(s, j);
        ReadingsKeepGood(s, RejudgedRows(j, Requests(s.requests), s.disk, s.results));
      case Disturbing(disk) => DiskKeepsGood(s, disk);
    }
  }

  lemma StartIsGood()
    ensures Good(State([], [], map[]))
  {}

  lemma DiskKeepsGood(s: State, disk: map<string, string>)
    requires Good(s)
    ensures Good(s.(disk := disk))
  {}

  // ---------- safety over every run ----------

  /** No bad answer turns good: over every run, an answer whose first judgement was anything other
      than success, NOT_JSON, SCHEMA_INVALID or EMPTY is never shown as ok, under any selection. */
  lemma NeverTurnedGood(review: bool, steps: seq<Step>, sel: Selection, i: nat)
    requires var s := Run(review, steps);
             && i < |s.results| && IsOriginal(s.results[i]) && s.results[i].verdict.failure.Some?
             && s.results[i].verdict.failure.value !in {"NOT_JSON", "SCHEMA_INVALID", "EMPTY"}
    ensures var s := Run(review, steps);
            var shown := Read(Requests(s.requests), sel, s.results).shown;
            var first := s.results[i];
            first.key in shown && shown[first.key].attempt == first.attempt ==>
              !shown[first.key].ok && shown[first.key].verdict.output == Null
  {
    assert !MayReopen(Run(review, steps).results[i].verdict.failure);
    hide Read, Requests, MayReopen;
    RunIsGood(review, steps);
    var s := Run(review, steps);
    var first, rows := s.results[i], s.results;
    ShownIsSourced(Requests(s.requests), sel, rows);
    var shown := Read(Requests(s.requests), sel, rows).shown;
    if first.key in shown && shown[first.key].attempt == first.attempt {
      assert Sourced(rows, first.key, shown[first.key]);
      var o :| 0 <= o < |rows| && Behind(rows[o], first.key, shown[first.key]);
      AttemptIsUnique(rows, o, i);
    }
  }

  /** The first `n` rows that are first judgements of one reader's answers to one call. */
  function FirstJudged(rows: seq<Row>, key: Key, n: nat): set<nat>
    requires n <= |rows|
  {
    set k: nat | k < n && rows[k].rejudgedFrom.None? && rows[k].key == key
  }

  lemma {:induction false} EarlierIsCounted(rows: seq<Row>, key: Key, n: nat)
    requires n <= |rows|
    ensures EarlierAttempts(rows[..n], key) == |FirstJudged(rows, key, n)|
  {
    if n > 0 {
      EarlierIsCounted(rows, key, n - 1);
      assert rows[..n][..n - 1] == rows[..n - 1];
      if IsAttempt(key, rows[n - 1]) {
        assert FirstJudged(rows, key, n) == FirstJudged(rows, key, n - 1) + {n - 1};
      } else {
        assert FirstJudged(rows, key, n) == FirstJudged(rows, key, n - 1);
      }
    }
  }

  /** Over every run the attempts of one reader at one call are numbered 1, 2, 3, … without gap. */
  lemma AttemptsAreConsecutive(review: bool, steps: seq<Step>, i: nat)
    requires i < |Run(review, steps).results| && IsOriginal(Run(review, steps).results[i])
    ensures var rows := Run(review, steps).results; rows[i].attempt == 1 + |FirstJudged(rows, rows[i].key, i)|
  {
    RunIsGood(review, steps);
    EarlierIsCounted(Run(review, steps).results, Run(review, steps).results[i].key, i);
  }

  /** Over any rows and selection, what is shown as ok was asked with the prompt the call now has, as far as
      the runner said what it sent. */
  lemma {:induction false} OkAsksThisPrompt(requests: seq<Request>, sel: Selection, rows: seq<Row>, k: Key)
    requires k in Read(requests, sel, rows).shown && Read(requests, sel, rows).shown[k].ok
    ensures var held := Read(requests, sel, rows).shown[k];
      && !Truthy(held.verdict.failure)
      && (Find(requests, held.call).Some? && held.promptSha.Some? ==>
            held.promptSha.value == Find(requests, held.call).value.first.promptSha)
  {
    hide Find, Selected, PhysicalOf;
    if rows != [] {
      var front, row := rows[..|rows| - 1], rows[|rows| - 1];
      var before := Read(requests, sel, front);
      if k in before.shown && Read(requests, sel, rows).shown[k] == before.shown[k] {
        OkAsksThisPrompt(requests, sel, front, k);
      }
    }
  }

  /** Of this backend and this model, where one is asked for. */
  predicate IsOf(sel: Selection, row: Row) {
    && (match sel.backend case Some(backend) => row.backend == backend case None => true)
    && (match sel.model case Some(model) => row.model == model case None => true)
  }

  /** Over any rows, a selection shows rows of its own backend and model only, and every first judgement of
      one under its key. */
  lemma {:induction false} SelectionShowsItsOwn(requests: seq<Request>, sel: Selection, rows: seq<Row>)
    ensures var shown := Read(requests, sel, rows).shown;
      && (forall k :: k in shown ==> IsOf(sel, shown[k]))
      && forall i :: 0 <= i < |rows| && rows[i].rejudgedFrom.None? && IsOf(sel, rows[i]) ==> rows[i].key in shown
  {
    if rows != [] {
      var front, row := rows[..|rows| - 1], rows[|rows| - 1];
      SelectionShowsItsOwn(requests, sel, front);
      assert rows == front + [row];
      hide Read;
      LastIsSeen(requests, sel, rows);
      SeeShowsItsOwn(requests, sel, Read(requests, sel, front), row);
    }
  }

  lemma LastIsSeen(requests: seq<Request>, sel: Selection, rows: seq<Row>)
    requires rows != []
    ensures Read(requests, sel, rows) == See(requests, sel, Read(requests, sel, rows[..|rows| - 1]), rows[|rows| - 1])
  {}

  lemma SeeShowsItsOwn(requests: seq<Request>, sel: Selection, seen: Seen, row: Row)
    ensures var shown := See(requests, sel, seen, row).shown;
      && (forall k :: k in seen.shown ==> k in shown)
      && (IsOf(sel, row) && IsOriginal(row) ==> row.key in shown)
      && (forall k :: k in shown ==> (k in seen.shown && shown[k] == seen.shown[k]) || IsOf(sel, shown[k]))
  {
    assert Selected(sel, row) <==> IsOf(sel, row);
    MarkedIsOf(requests, row);
    if PhysicalOf(row) in seen.origins {
      var origin := seen.origins[PhysicalOf(row)];
      MarkedIsOf(requests, AsFirstJudged(row.(key := origin.key), origin));
      JudgedIsOf(row.(key := origin.key), origin);
    }
    hide PhysicalOf, Marked, AsFirstJudged, Selected;
  }

  lemma MarkedIsOf(requests: seq<Request>, row: Row)
    ensures Marked(requests, row).backend == row.backend && Marked(requests, row).model == row.model
  {
    hide Find;
  }

  lemma JudgedIsOf(row: Row, origin: Row)
    ensures AsFirstJudged(row, origin).backend == row.backend && AsFirstJudged(row, origin).model == row.model
  {
    hide MayReopen;
  }

  // ---------- what one result row promises ----------

  /** `ok` means there is a validated output to show: nothing failed, was refused or was cut off, the
      runner sent this prompt or did not say, and the bytes parse to the output without a problem. */
  lemma OkExactlyWhenValidated(rules: Rules, call: string, promptSha: string, schema: Json, answer: Answer, d: Delivery)
    ensures var row := BuildResult(rules, call, promptSha, schema, answer, d);
            row.ok <==>
              && !Truthy(answer.failure) && !answer.refused && !answer.truncated && answer.body != ""
              && (answer.promptSent.None? || rules.hash(answer.promptSent.value) == promptSha)
              && rules.parse(answer.body).Some? && rules.problems(rules.parse(answer.body).value, schema) == []
    ensures var row := BuildResult(rules, call, promptSha, schema, answer, d);
            row.verdict.output == if row.ok then rules.parse(answer.body).value else Null
  {}

  /** An answer cut off, however early, is never left open for a routine retry. */
  lemma CutOffIsNeverRetried(d: DrainCall, earlier: nat, r: Request)
    requires d.ask(r).answer.truncated && !IsTransient(d.ask(r).answer.failure)
    ensures !IsTransient(AnswerRow(d, earlier, r).verdict.failure) && !AnswerRow(d, earlier, r).ok
  {}
}
