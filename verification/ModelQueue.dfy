/** `claimstone/model_call.py`: one request ledger, many readers, retries and re-judgements. */
module ModelQueue {
  import opened Seqs
  import opened JsonShape

  // ---------- entities ----------

  /** A backend always names itself; a reader's model may be undeclared (`""`). */
  type Name = s: string | s != "" witness "backend"

  /** `call_id|backend|model`: one call as put to one reader. */
  datatype Key = Key(call: string, backend: Name, reader: string)

  datatype Asker = Asker(source: Option<string>, chunk: Option<string>)
  datatype Unit = Unit(call: string, promptSha: string, schema: Json, asker: Asker, target: string)

  /** A request row: the unit that first asked, everyone who asked, and (for reviews) every target. */
  datatype Request = Request(first: Unit, askedBy: seq<Asker>, targets: seq<string>)

  /** What a runner hands back. An empty body is no body. */
  datatype Answer = Answer(body: string, model: string, promptSent: Option<string>, usage: string, truncated: bool,
                           refused: bool, failure: Option<string>)

  datatype Verdict = Verdict(output: Json, failure: Option<string>, problems: seq<string>)

  /** Facts about one reply that a later re-reading carries over. */
  datatype Facts = Facts(harness: string, usage: string, startedAt: string)

  /** What the backend reported and bytes cannot show. */
  datatype Report = Report(failure: Option<string>, refused: bool, truncated: bool, model: string)

  datatype Row = Row(key: Key, call: string, backend: Name, model: string, attempt: nat, ok: bool, verdict: Verdict,
                     promptSha: Option<string>, promptVerified: bool, rawSha: Option<string>, rawPath: Option<string>,
                     judged: Json, report: Report, facts: Facts, finishedAt: string, rejudgedFrom: Option<string>)

  /** The current judging rules: how bytes parse, what a schema says is wrong, and the hash. */
  datatype Rules = Rules(parse: string -> Option<Json>, problems: (Json, Json) -> seq<string>, hash: string -> string)

  // ---------- failure classes ----------

  const NOT_JSON := "NOT_JSON"
  const SCHEMA_INVALID := "SCHEMA_INVALID"
  const EMPTY := "EMPTY"
  const REFUSED := "REFUSED"
  const TRUNCATED := "TRUNCATED"
  const PROMPT_MISMATCH := "PROMPT_MISMATCH"
  const RAW_HASH_MISMATCH := "RAW_HASH_MISMATCH"
  const TRANSIENT := {"TIMEOUT", "RATE_LIMITED", "BACKEND_ERROR", "EMPTY"}

  /** An unrecognised class is terminal. */
  predicate IsTransient(failure: Option<string>) { failure.Some? && failure.value in TRANSIENT }

  predicate Truthy(s: Option<string>) { s.Some? && s.value != "" }

  /** A first judgement that reading the bytes again may change. */
  predicate MayReopen(failure: Option<string>) {
    failure in {None, Some(NOT_JSON), Some(SCHEMA_INVALID), Some(EMPTY)}
  }

  // ---------- judging ----------

  function Failing(failure: string): Verdict { Verdict(Null, Some(failure), []) }

  function Classify(rules: Rules, answer: Answer, schema: Json): Verdict {
    if Truthy(answer.failure) then Failing(answer.failure.value)
    else if answer.refused then Failing(REFUSED)
    else if answer.truncated then Failing(TRUNCATED)
    else if answer.body == "" then Failing(EMPTY)
    else
      var parsed := rules.parse(answer.body);
      if parsed.None? then Failing(NOT_JSON)
      else
        var problems := rules.problems(parsed.value, schema);
        if problems != [] then Verdict(Null, Some(SCHEMA_INVALID), problems) else Verdict(parsed.value, None, [])
  }

  datatype Delivery = Delivery(backend: Name, model: string, attempt: nat, rawSha: Option<string>,
                               rawPath: Option<string>, facts: Facts, finishedAt: string)

  function BuildResult(rules: Rules, call: string, promptSha: string, schema: Json, answer: Answer, d: Delivery): Row {
    var echoed := if answer.promptSent.Some? then Some(rules.hash(answer.promptSent.value)) else None;
    var verified := echoed == Some(promptSha);
    var verdict := if echoed.Some? && !verified then Failing(PROMPT_MISMATCH) else Classify(rules, answer, schema);
    Row(Key(call, d.backend, d.model), call, d.backend, if d.model != "" then d.model else answer.model, d.attempt,
        verdict.failure.None?, verdict, echoed, verified, d.rawSha, d.rawPath, schema,
        Report(answer.failure, answer.refused, answer.truncated, answer.model), d.facts, d.finishedAt, None)
  }

  // ---------- requests ----------

  function TargetsOf(r: Request): seq<string> { if r.targets == [] then [r.first.target] else r.targets }

  /** The row `write` appends for one unit, given what is held for its call. */
  function Asked(review: bool, held: Option<Request>, unit: Unit): Option<Request> {
    if held.None? then Some(Request(unit, [unit.asker], if review then [unit.target] else []))
    else
      var previous := held.value;
      var newTarget := review && unit.target !in TargetsOf(previous);
      if unit.asker in previous.askedBy && !newTarget then None
      else Some(previous.(askedBy := if unit.asker in previous.askedBy then previous.askedBy
                                     else previous.askedBy + [unit.asker],
                          targets := if newTarget then TargetsOf(previous) + [unit.target] else previous.targets))
  }

  /** Position of a call's row in the collapsed ledger, or the end. */
  function At(rs: seq<Request>, call: string): (i: nat)
    ensures i <= |rs|
    ensures i < |rs| ==> rs[i].first.call == call
    ensures forall j :: 0 <= j < i ==> rs[j].first.call != call
  {
    if rs == [] || rs[0].first.call == call then 0 else 1 + At(rs[1..], call)
  }

  function Find(rs: seq<Request>, call: string): Option<Request> {
    if At(rs, call) < |rs| then Some(rs[At(rs, call)]) else None
  }

  function PutRequest(rs: seq<Request>, r: Request): seq<Request> {
    var i := At(rs, r.first.call);
    if i < |rs| then rs[i := r] else rs + [r]
  }

  /** One row per call, the latest, in the order the calls first appeared. */
  function Requests(rows: seq<Request>): seq<Request> {
    if rows == [] then [] else PutRequest(Requests(rows[..|rows| - 1]), rows[|rows| - 1])
  }

  datatype Written = Wrote(calls: nat) | SchemaRefused(at: nat)

  /** The ledger after `write`, and what it returned. A refused schema stops the batch there; the
      units before it are already appended. */
  function WriteFrom(review: bool, rows: seq<Request>, units: seq<Unit>, done: nat, count: nat): (seq<Request>, Written)
    requires done <= |units|
    decreases |units| - done
  {
    if done == |units| then (rows, Wrote(count))
    else if !Accepts(units[done].schema) then (rows, SchemaRefused(done))
    else
      var held := Find(Requests(rows), units[done].call);
      var row := Asked(review, held, units[done]);
      WriteFrom(review, if row.Some? then rows + [row.value] else rows, units, done + 1,
                if held.None? then count + 1 else count)
  }

  // ---------- results: one current answer per call and reader ----------

  /** The identity of an answer's bytes, shared by every reading of it. */
  datatype Physical = Physical(call: string, backend: Name, model: string, attempt: nat, rawSha: Option<string>)

  function PhysicalOf(row: Row): Physical { Physical(row.call, row.backend, row.model, row.attempt, row.rawSha) }

  predicate IsOriginal(row: Row) { row.rejudgedFrom.None? }

  datatype Selection = Selection(backend: Option<string>, model: Option<string>)

  predicate Selected(sel: Selection, row: Row) {
    (sel.backend.None? || sel.backend.value == row.backend) && (sel.model.None? || sel.model.value == row.model)
  }

  /** `latest` (in insertion order) and `origins`, as the loop in `results` builds them. */
  datatype Seen = Seen(order: seq<Key>, shown: map<Key, Row>, origins: map<Physical, Row>)

  function Fail(row: Row, failure: string): Row {
    row.(ok := false, verdict := row.verdict.(output := Null, failure := Some(failure)))
  }

  /** A re-reading never improves on a first judgement that bytes cannot overturn. */
  function AsFirstJudged(row: Row, origin: Row): Row {
    if MayReopen(origin.verdict.failure) then row else Fail(row, origin.verdict.failure.value)
  }

  function Marked(requests: seq<Request>, row: Row): Row {
    var request := Find(requests, row.call);
    if request.Some? && row.promptSha.Some? && row.promptSha.value != request.value.first.promptSha
    then Fail(row, PROMPT_MISMATCH)
    else if Truthy(row.verdict.failure) then row.(ok := false, verdict := row.verdict.(output := Null))
    else row
  }

  function Show(seen: Seen, key: Key, row: Row): Seen {
    Seen(if key in seen.shown then seen.order else seen.order + [key], seen.shown[key := row], seen.origins)
  }

  function See(requests: seq<Request>, sel: Selection, seen: Seen, row: Row): Seen {
    if !Selected(sel, row) then seen
    else if IsOriginal(row) then
      Show(seen.(origins := seen.origins[PhysicalOf(row) := row]), row.key, Marked(requests, row))
    else if PhysicalOf(row) in seen.origins then
      var origin := seen.origins[PhysicalOf(row)];
      Show(seen, origin.key, Marked(requests, AsFirstJudged(row.(key := origin.key), origin)))
    else Show(seen, row.key, Marked(requests, row))
  }

  function Read(requests: seq<Request>, sel: Selection, rows: seq<Row>): Seen {
    if rows == [] then Seen([], map[], map[])
    else See(requests, sel, Read(requests, sel, rows[..|rows| - 1]), rows[|rows| - 1])
  }

  // ---------- pending ----------

  predicate IsPending(shown: map<Key, Row>, key: Key, retry: set<string>) {
    key !in shown ||
    (!shown[key].ok &&
     var failure := shown[key].verdict.failure;
     (failure.Some? && failure.value in retry) || IsTransient(failure))
  }

  datatype Reader = Reader(backend: Name, model: string)

  function KeyFor(r: Request, reader: Reader): Key { Key(r.first.call, reader.backend, reader.model) }

  predicate Waits(shown: map<Key, Row>, reader: Reader, retry: set<string>, r: Request) {
    IsPending(shown, KeyFor(r, reader), retry)
  }

  function PendingOf(requests: seq<Request>, rows: seq<Row>, reader: Reader, retry: set<string>): seq<Request> {
    var shown := Read(requests, Selection(Some(reader.backend), None), rows).shown;
    Filter(r => Waits(shown, reader, retry, r), requests)
  }

  // ---------- drain ----------

  datatype Reply = Reply(answer: Answer, facts: Facts, finishedAt: string)

  /** `limit` also stands for a drain its caller abandons: rows land one at a time. */
  datatype DrainCall = DrainCall(rules: Rules, reader: Reader, ask: Request -> Reply, limit: Option<nat>,
                                 retry: set<string>, calls: Option<set<string>>)

  predicate Wanted(d: DrainCall, r: Request) { d.calls.None? || r.first.call in d.calls.value }

  function ChosenOf(d: DrainCall, pending: seq<Request>): seq<Request> {
    var wanted := Filter(r => Wanted(d, r), pending);
    if d.limit.Some? && d.limit.value < |wanted| then wanted[..d.limit.value] else wanted
  }

  predicate IsAttempt(key: Key, row: Row) { IsOriginal(row) && row.key == key }

  function PathOf(sha: string): string { "raw/" + sha + ".txt" }

  function AnswerRow(d: DrainCall, earlier: nat, r: Request): Row {
    var reply := d.ask(r);
    var sha := if reply.answer.body != "" then Some(d.rules.hash(reply.answer.body)) else None;
    BuildResult(d.rules, r.first.call, r.first.promptSha, r.first.schema, reply.answer,
                Delivery(d.reader.backend, d.reader.model, earlier + 1, sha,
                         if sha.Some? then Some(PathOf(sha.value)) else None, reply.facts, reply.finishedAt))
  }

  function EarlierAttempts(rows: seq<Row>, key: Key): nat { Count(rows, row => IsAttempt(key, row)) }

  function Answers(d: DrainCall, rows: seq<Row>, chosen: seq<Request>): seq<Row> {
    Apply(r => AnswerRow(d, EarlierAttempts(rows, KeyFor(r, d.reader)), r), chosen)
  }

  /** The bytes under their hash. A file that already hashes to its name is left, any other rewritten. */
  function Stored(d: DrainCall, disk: map<string, string>, r: Request): map<string, string> {
    var body := d.ask(r).answer.body;
    var path := PathOf(d.rules.hash(body));
    if body == "" || (path in disk && d.rules.hash(disk[path]) == d.rules.hash(body)) then disk
    else disk[path := body]
  }

  function StoredAll(d: DrainCall, disk: map<string, string>, chosen: seq<Request>): map<string, string> {
    if chosen == [] then disk else Stored(d, StoredAll(d, disk, chosen[..|chosen| - 1]), chosen[|chosen| - 1])
  }

  // ---------- rejudge ----------

  datatype Original = Original(key: Key, attempt: nat, rawSha: Option<string>)

  function OriginalId(row: Row): Original { Original(row.key, row.attempt, row.rawSha) }

  function OriginalsOf(rows: seq<Row>): map<Original, Row> {
    if rows == [] then map[]
    else
      var before, row := OriginalsOf(rows[..|rows| - 1]), rows[|rows| - 1];
      if IsOriginal(row) then before[OriginalId(row) := row] else before
  }

  datatype RejudgeCall = RejudgeCall(rules: Rules, backend: Option<string>, schema: Option<Json>, at: string)

  /** The stored answer read again under the current rules. What bytes cannot show is carried over
      from the first judgement. */
  function Reread(j: RejudgeCall, request: Request, held: Row, origin: Row, body: string): Row {
    var failure := origin.verdict.failure;
    var schema := if j.schema.Some? then j.schema.value
                  else if held.judged != Null then held.judged else request.first.schema;
    var damaged := held.rawSha.Some? && j.rules.hash(body) != held.rawSha.value;
    var answer := Answer(body, origin.report.model, None, held.facts.usage,
                         origin.report.truncated || failure == Some(TRUNCATED),
                         origin.report.refused || failure == Some(REFUSED),
                         if damaged then Some(RAW_HASH_MISMATCH) else origin.report.failure);
    var built := BuildResult(j.rules, request.first.call, request.first.promptSha, schema, answer,
                             Delivery(held.backend, held.model, held.attempt, held.rawSha, held.rawPath, held.facts,
                                      j.at));
    var row := built.(key := held.key, promptSha := origin.promptSha, promptVerified := origin.promptVerified,
                      rejudgedFrom := Some(held.finishedAt));
    if failure == Some(PROMPT_MISMATCH) then Fail(row, PROMPT_MISMATCH) else row
  }

  /** Equal apart from when it was judged. */
  predicate SameReading(a: Row, b: Row) { a.(finishedAt := b.finishedAt, rejudgedFrom := b.rejudgedFrom) == b }

  predicate Readable(requests: seq<Request>, disk: map<string, string>, held: Row) {
    Find(requests, held.call).Some? && held.rawPath.Some? && held.rawPath.value in disk
  }

  function OriginOf(originals: map<Original, Row>, held: Row): Row {
    if OriginalId(held) in originals then originals[OriginalId(held)] else held
  }

  function RejudgedRow(j: RejudgeCall, requests: seq<Request>, disk: map<string, string>, originals: map<Original, Row>,
                       held: Row): Option<Row>
  {
    if !Readable(requests, disk, held) then None
    else
      var row := Reread(j, Find(requests, held.call).value, held, OriginOf(originals, held), disk[held.rawPath.value]);
      if held.rejudgedFrom.Some? && SameReading(row, held) then None else Some(row)
  }

  function Rereadings(j: RejudgeCall, requests: seq<Request>, disk: map<string, string>, originals: map<Original, Row>,
                      shown: map<Key, Row>, order: seq<Key>): seq<Row>
    requires forall k :: k in order ==> k in shown
  {
    if order == [] then []
    else
      var before := Rereadings(j, requests, disk, originals, shown, order[..|order| - 1]);
      var row := RejudgedRow(j, requests, disk, originals, shown[order[|order| - 1]]);
      if row.Some? then before + [row.value] else before
  }

  lemma {:induction false} OrderIsShown(requests: seq<Request>, sel: Selection, rows: seq<Row>)
    ensures var seen := Read(requests, sel, rows);
            Distinct(seen.order) && forall k :: k in seen.order <==> k in seen.shown
  {
    if rows != [] {
      OrderIsShown(requests, sel, rows[..|rows| - 1]);
    }
  }

  function RejudgedRows(j: RejudgeCall, requests: seq<Request>, disk: map<string, string>, rows: seq<Row>): seq<Row> {
    OrderIsShown(requests, Selection(j.backend, None), rows);
    var seen := Read(requests, Selection(j.backend, None), rows);
    Rereadings(j, requests, disk, OriginalsOf(rows), seen.shown, seen.order)
  }

  // ---------- the queue ----------

  /** One lane's batch: requests in, results appended beside them, answer bytes under their hash. */
  datatype State = State(requests: seq<Request>, results: seq<Row>, disk: map<string, string>)

  function AfterDrain(s: State, d: DrainCall): State {
    var requests := Requests(s.requests);
    var chosen := ChosenOf(d, PendingOf(requests, s.results, d.reader, d.retry));
    State(s.requests, s.results + Answers(d, s.results, chosen), StoredAll(d, s.disk, chosen))
  }

  function AfterRejudge(s: State, j: RejudgeCall): State {
    s.(results := s.results + RejudgedRows(j, Requests(s.requests), s.disk, s.results))
  }

  class Queue {
    const review: bool
    var requestRows: seq<Request>
    var resultRows: seq<Row>
    var disk: map<string, string>

    constructor (review: bool)
      ensures this.review == review && Now() == State([], [], map[])
    {
      this.review := review;
      requestRows, resultRows, disk := [], [], map[];
    }

    ghost function Now(): State
      reads this
    {
      State(requestRows, resultRows, disk)
    }

    /** One row per call, the latest. */
    method ReadRequests() returns (held: seq<Request>)
      ensures held == Requests(requestRows)
    {
      held := [];
      for i := 0 to |requestRows|
        invariant held == Requests(requestRows[..i])
      {
        assert requestRows[..i + 1][..i] == requestRows[..i];
        held := PutRequest(held, requestRows[i]);
      }
      assert requestRows[..|requestRows|] == requestRows;
    }

    method Write(units: seq<Unit>) returns (out: Written)
      modifies this`requestRows
      ensures (requestRows, out) == WriteFrom(review, old(requestRows), units, 0, 0)
    {
      var held := ReadRequests();
      var written := 0;
      for i := 0 to |units|
        invariant held == Requests(requestRows)
        invariant WriteFrom(review, requestRows, units, i, written) == WriteFrom(review, old(requestRows), units, 0, 0)
      {
        if !Accepts(units[i].schema) {
          return SchemaRefused(i);
        }
        var previous := Find(held, units[i].call);
        var row := Asked(review, previous, units[i]);
        if row.Some? {
          assert (requestRows + [row.value])[..|requestRows|] == requestRows;
          requestRows := requestRows + [row.value];
          held := PutRequest(held, row.value);
        }
        if previous.None? {
          written := written + 1;
        }
      }
      out := Wrote(written);
    }

    /** The latest result per call, per reader. */
    method Results(sel: Selection) returns (seen: Seen)
      ensures seen == Read(Requests(requestRows), sel, resultRows)
    {
      var requests := ReadRequests();
      seen := Seen([], map[], map[]);
      for i := 0 to |resultRows|
        invariant seen == Read(requests, sel, resultRows[..i])
      {
        assert resultRows[..i + 1][..i] == resultRows[..i];
        seen := See(requests, sel, seen, resultRows[i]);
      }
      assert resultRows[..|resultRows|] == resultRows;
    }

    method Pending(reader: Reader, retry: set<string>) returns (out: seq<Request>)
      ensures out == PendingOf(Requests(requestRows), resultRows, reader, retry)
    {
      var answered := Results(Selection(Some(reader.backend), None));
      var requests := ReadRequests();
      out := [];
      for i := 0 to |requests|
        invariant out == Filter(r => Waits(answered.shown, reader, retry, r), requests[..i])
      {
        FilterSnoc(r => Waits(answered.shown, reader, retry, r), requests, i);
        var key := KeyFor(requests[i], reader);
        if key !in answered.shown {
          out := out + [requests[i]];
          continue;
        }
        var held := answered.shown[key];
        if held.ok {
          continue;
        }
        var failure := held.verdict.failure;
        if (failure.Some? && failure.value in retry) || IsTransient(failure) {
          out := out + [requests[i]];
        }
      }
      assert requests[..|requests|] == requests;
    }

    /** Attempt numbers are counted once, before anything is appended. */
    method CountAttempts(key: Key) returns (n: nat)
      ensures n == EarlierAttempts(resultRows, key)
    {
      n := 0;
      for i := 0 to |resultRows|
        invariant n == EarlierAttempts(resultRows[..i], key)
      {
        assert resultRows[..i + 1][..i] == resultRows[..i];
        if IsAttempt(key, resultRows[i]) {
          n := n + 1;
        }
      }
      assert resultRows[..|resultRows|] == resultRows;
    }

    /** Ask this reader the chosen waiting calls; answers go to the ledger, their bytes to disk. */
    method Drain(d: DrainCall)
      modifies this`resultRows, this`disk
      ensures Now() == AfterDrain(old(Now()), d)
    {
      hide PendingOf, ChosenOf, AnswerRow, EarlierAttempts, Requests, Stored;
      var pending := Pending(d.reader, d.retry);
      var chosen := ChosenOf(d, pending);
      var prior := CountPrior(d, chosen);
      AppendAnswers(d, chosen, prior);
    }

    method CountPrior(d: DrainCall, chosen: seq<Request>) returns (prior: seq<nat>)
      ensures |prior| == |chosen|
      ensures forall k :: 0 <= k < |prior| ==> prior[k] == EarlierAttempts(resultRows, KeyFor(chosen[k], d.reader))
    {
      prior := [];
      for i := 0 to |chosen|
        invariant |prior| == i
        invariant forall k :: 0 <= k < i ==> prior[k] == EarlierAttempts(resultRows, KeyFor(chosen[k], d.reader))
      {
        var earlier := CountAttempts(KeyFor(chosen[i], d.reader));
        prior := prior + [earlier];
      }
    }

    method AppendAnswers(d: DrainCall, chosen: seq<Request>, prior: seq<nat>)
      requires |prior| == |chosen|
      requires forall k :: 0 <= k < |prior| ==> prior[k] == EarlierAttempts(resultRows, KeyFor(chosen[k], d.reader))
      modifies this`resultRows, this`disk
      ensures resultRows == old(resultRows) + Answers(d, old(resultRows), chosen)
      ensures disk == StoredAll(d, old(disk), chosen)
    {
      hide AnswerRow, EarlierAttempts, Stored, Answers;
      ghost var before := resultRows;
      assert chosen[..0] == [];
      NoAnswers(d, before);
      for i := 0 to |chosen|
        invariant resultRows == before + Answers(d, before, chosen[..i])
        invariant disk == StoredAll(d, old(disk), chosen[..i])
      {
        assert chosen[..i + 1][..i] == chosen[..i];
        AnswersSnoc(d, before, chosen, i);
        disk := Stored(d, disk, chosen[i]);
        resultRows := resultRows + [AnswerRow(d, prior[i], chosen[i])];
      }
      assert chosen[..|chosen|] == chosen;
    }

    method ReadOriginals() returns (originals: map<Original, Row>)
      ensures originals == OriginalsOf(resultRows)
    {
      originals := map[];
      for i := 0 to |resultRows|
        invariant originals == OriginalsOf(resultRows[..i])
      {
        assert resultRows[..i + 1][..i] == resultRows[..i];
        if IsOriginal(resultRows[i]) {
          originals := originals[OriginalId(resultRows[i]) := resultRows[i]];
        }
      }
      assert resultRows[..|resultRows|] == resultRows;
    }

    /** Judge what each key shows once more, unless its bytes or its request are gone. */
    method Rejudge(j: RejudgeCall)
      modifies this`resultRows
      ensures Now() == AfterRejudge(old(Now()), j)
    {
      hide RejudgedRow, Requests, Read, OriginalsOf;
      var requests := ReadRequests();
      var originals := ReadOriginals();
      var seen := Results(Selection(j.backend, None));
      OrderIsShown(requests, Selection(j.backend, None), resultRows);
      ghost var before := resultRows;
      for i := 0 to |seen.order|
        invariant resultRows == before + Rereadings(j, requests, disk, originals, seen.shown, seen.order[..i])
      {
        assert seen.order[..i + 1][..i] == seen.order[..i];
        var row := RejudgedRow(j, requests, disk, originals, seen.shown[seen.order[i]]);
        if row.Some? {
          resultRows := resultRows + [row.value];
        }
      }
      assert seen.order[..|seen.order|] == seen.order;
    }
  }

  lemma NoAnswers(d: DrainCall, rows: seq<Row>)
    ensures Answers(d, rows, []) == []
  {}

  lemma AnswersSnoc(d: DrainCall, rows: seq<Row>, chosen: seq<Request>, i: nat)
    requires i < |chosen|
    ensures Answers(d, rows, chosen[..i + 1]) ==
      Answers(d, rows, chosen[..i]) + [AnswerRow(d, EarlierAttempts(rows, KeyFor(chosen[i], d.reader)), chosen[i])]
  {
    hide AnswerRow, EarlierAttempts;
  }

  lemma FilterSnoc<T>(keep: T -> bool, s: seq<T>, i: nat)
    requires i < |s|
    ensures Filter(keep, s[..i + 1]) == Filter(keep, s[..i]) + (if keep(s[i]) then [s[i]] else [])
  {
    assert s[..i + 1] == s[..i] + [s[i]];
    FilterConcat(keep, s[..i], [s[i]]);
    assert [s[i]][1..] == [];
  }
}
