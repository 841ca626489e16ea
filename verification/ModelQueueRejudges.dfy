/** One answer read again: what is carried over, what is shown, and when a further reading agrees. */
module ModelQueueRejudges {
  import opened Seqs
  import opened JsonShape
  import opened ModelQueue
  import opened ModelQueueLaws

  // ---------- one row read again ----------

  predicate Damaged(j: RejudgeCall, held: Row, body: string) {
    held.rawSha.Some? && j.rules.hash(body) != held.rawSha.value
  }

  function Redisplay(requests: seq<Request>, row: Row, origin: Row): Row {
    Marked(requests, AsFirstJudged(row, origin))
  }

  /** A damaged answer whose first judgement was terminal and not about its bytes: what is shown
      keeps the first judgement, what is re-read says the bytes are damaged. */
  predicate Stuck(j: RejudgeCall, held: Row, origin: Row, body: string) {
    Damaged(j, held, body) && !MayReopen(origin.verdict.failure)
    && origin.verdict.failure !in {Some(PROMPT_MISMATCH), Some(RAW_HASH_MISMATCH)}
  }

  lemma DisplayKeeps(requests: seq<Request>, row: Row, origin: Row)
    ensures var shown := Redisplay(requests, row, origin);
            shown == row.(ok := shown.ok, verdict := shown.verdict)
  {
    hide Find, MayReopen;
  }

  // ---------- two first judgements of the same bytes ----------

  /** What a re-reading carries over from a first judgement. */
  datatype Carried = Carried(report: Report, promptSha: Option<string>, promptVerified: bool)

  function Carry(j: RejudgeCall, held: Row, origin: Row, body: string): Carried {
    var f := origin.verdict.failure;
    Carried(Report(if Damaged(j, held, body) then Some(RAW_HASH_MISMATCH) else origin.report.failure,
                   origin.report.refused || f == Some(REFUSED), origin.report.truncated || f == Some(TRUNCATED),
                   origin.report.model),
            origin.promptSha, origin.promptVerified)
  }

  function JudgedBytes(j: RejudgeCall, request: Request, held: Row, report: Report, body: string): Verdict {
    var schema := if j.schema.Some? then j.schema.value
                  else if held.judged != Null then held.judged else request.first.schema;
    var answer := Answer(body, report.model, None, held.facts.usage, report.truncated, report.refused, report.failure);
    Classify(j.rules, answer, schema)
  }

  function Mismatched(v: Verdict): Verdict { v.(output := Null, failure := Some(PROMPT_MISMATCH)) }

  lemma RereadParts(j: RejudgeCall, request: Request, held: Row, origin: Row, body: string)
    requires held.model == "" ==> origin.report.model == ""
    ensures var row, c := Reread(j, request, held, origin, body), Carry(j, held, origin, body);
            var v := JudgedBytes(j, request, held, c.report, body);
            var mismatch := origin.verdict.failure == Some(PROMPT_MISMATCH);
            && row.report == c.report && row.promptSha == c.promptSha && row.promptVerified == c.promptVerified
            && row.verdict == (if mismatch then Mismatched(v) else v)
            && row.ok == row.verdict.failure.None? && (v.failure.Some? ==> v.output == Null)
    ensures var row := Reread(j, request, held, origin, body);
            row.key == held.key && row.call == request.first.call && row.backend == held.backend
            && row.model == held.model
            && row.attempt == held.attempt && row.rawSha == held.rawSha && row.rawPath == held.rawPath
            && row.judged == (if j.schema.Some? then j.schema.value
                              else if held.judged != Null then held.judged else request.first.schema)
            && row.facts == held.facts && row.finishedAt == j.at && row.rejudgedFrom == Some(held.finishedAt)
  {}

  /** Reading what was shown under `key` after a reading gives the reading by that key's own first
      judgement, apart from its time. */
  lemma RereadAgain(j: RejudgeCall, at: string, request: Request, held: Row, first: Row, origin: Row, body: string,
                    key: Key, shown: Row)
    requires j.schema.None? && (held.model == "" ==> first.report.model == "" && origin.report.model == "")
    requires var row := Reread(j, request, held, first, body).(key := key);
             shown == row.(ok := shown.ok, verdict := shown.verdict)
    ensures SameReading(Reread(j.(at := at), request, shown, origin, body),
                        Reread(j, request, held, origin, body).(key := key, finishedAt := at,
                                                                rejudgedFrom := Some(shown.finishedAt)))
  {
    RereadParts(j, request, held, first, body);
    RereadParts(j, request, held, origin, body);
    RereadParts(j.(at := at), request, shown, origin, body);
    SameBytes(j, at, request, held, shown, Carry(j, held, origin, body).report, body);
    hide Reread, JudgedBytes;
  }

  lemma SameBytes(j: RejudgeCall, at: string, request: Request, held: Row, shown: Row, report: Report, body: string)
    requires j.schema.None? && shown.facts == held.facts
    requires shown.judged == if held.judged != Null then held.judged else request.first.schema
    ensures JudgedBytes(j.(at := at), request, shown, report, body) == JudgedBytes(j, request, held, report, body)
  {
    hide Classify;
  }

  /** The owner's first judgement reads the bytes as they are shown: it carries over what the reading
      carried, it is not stuck on damage, and it does not reopen a prompt mismatch of the other. */
  predicate Agree(j: RejudgeCall, held: Row, first: Row, owner: Row, body: string) {
    && Carry(j, held, first, body) == Carry(j, held, owner, body)
    && !Stuck(j, held, owner, body)
    && !(first.verdict.failure == Some(PROMPT_MISMATCH) && MayReopen(owner.verdict.failure))
  }

  lemma AgreesWithItself(j: RejudgeCall, held: Row, origin: Row, body: string)
    ensures Agree(j, held, origin, origin, body) <==> !Stuck(j, held, origin, body)
  {}

  /** One answer's identity, as its readers share it, and the request it answers. */
  ghost predicate Alike(requests: seq<Request>, held: Row, origin: Row) {
    IsOriginal(origin) && Consistent(origin) && Asking(requests, origin) && PhysicalOf(origin) == PhysicalOf(held)
  }

  lemma AlikeModel(requests: seq<Request>, held: Row, origin: Row)
    requires Alike(requests, held, origin)
    ensures held.model == "" ==> origin.report.model == ""
    ensures Find(requests, held.call).Some? && Find(requests, held.call).value.first.call == held.call
  {
    hide MayReopen, Reported;
  }

  /** What is shown of a reading under its owner is what the owner's reading is, if and only if the two
      first judgements agree. */
  lemma ShownAsOwnExactlyWhen(j: RejudgeCall, requests: seq<Request>, held: Row, first: Row, owner: Row, body: string)
    requires Alike(requests, held, first) && Alike(requests, held, owner)
    ensures var request := Find(requests, held.call).value;
            var a := Reread(j, request, held, first, body).(key := owner.key);
            var b := Reread(j, request, held, owner, body).(key := owner.key);
            Redisplay(requests, a, owner) == b <==> Agree(j, held, first, owner, body)
  {
    AlikeModel(requests, held, first);
    AlikeModel(requests, held, owner);
    var request := Find(requests, held.call).value;
    RereadParts(j, request, held, first, body);
    RereadParts(j, request, held, owner, body);
    var a := Reread(j, request, held, first, body).(key := owner.key);
    var b := Reread(j, request, held, owner, body).(key := owner.key);
    DisplayKeeps(requests, a, owner);
    if Carry(j, held, first, body) == Carry(j, held, owner, body) {
      VerdictsAgree(j, requests, held, first, owner, body);
    }
    hide Reread, Redisplay, Stuck, MayReopen, JudgedBytes, Find, Consistent, Asking;
  }

  lemma VerdictsAgree(j: RejudgeCall, requests: seq<Request>, held: Row, first: Row, owner: Row, body: string)
    requires Alike(requests, held, first) && Alike(requests, held, owner)
    requires Carry(j, held, first, body) == Carry(j, held, owner, body)
    ensures var request := Find(requests, held.call).value;
            var a := Reread(j, request, held, first, body).(key := owner.key);
            var b := Reread(j, request, held, owner, body).(key := owner.key);
            var shown := Redisplay(requests, a, owner);
            shown.ok == b.ok && shown.verdict == b.verdict <==> Agree(j, held, first, owner, body)
  {
    hide Reread, JudgedBytes, Find, MayReopen, Redisplay, Mismatched, Carry, Damaged, Consistent, Asking, Agree;
    AlikeModel(requests, held, first);
    AlikeModel(requests, held, owner);
    CarriedPrompt(j, held, first, owner, body);
    var request := Find(requests, held.call).value;
    VerdictOf(j, request, held, first, body);
    VerdictOf(j, request, held, owner, body);
    var a := Reread(j, request, held, first, body).(key := owner.key);
    BytesVerdict(j, request, held, owner, body);
    assert a.call == owner.call && a.promptSha == owner.promptSha;
    ShownVerdict(requests, a, owner);
    AgreeIs(j, held, first, owner, body);
    hide *;
    var v := JudgedBytes(j, request, held, Carry(j, held, owner, body).report, body);
    VerdictCases(v, first.verdict.failure, owner.verdict.failure, Damaged(j, held, body));
  }

  lemma CarriedPrompt(j: RejudgeCall, held: Row, first: Row, owner: Row, body: string)
    requires Carry(j, held, first, body) == Carry(j, held, owner, body)
    ensures first.promptSha == owner.promptSha
  {}

  lemma AgreeIs(j: RejudgeCall, held: Row, first: Row, owner: Row, body: string)
    requires Carry(j, held, first, body) == Carry(j, held, owner, body)
    ensures var f := owner.verdict.failure;
            Agree(j, held, first, owner, body) <==>
              !(Damaged(j, held, body) && !MayReopen(f) && f !in {Some(PROMPT_MISMATCH), Some(RAW_HASH_MISMATCH)})
              && !(first.verdict.failure == Some(PROMPT_MISMATCH) && MayReopen(f))
  {
    hide Carry;
  }

  lemma VerdictOf(j: RejudgeCall, request: Request, held: Row, origin: Row, body: string)
    requires held.model == "" ==> origin.report.model == ""
    ensures var row := Reread(j, request, held, origin, body);
            var v := JudgedBytes(j, request, held, Carry(j, held, origin, body).report, body);
            && row.verdict == (if origin.verdict.failure == Some(PROMPT_MISMATCH) then Mismatched(v) else v)
            && row.ok == row.verdict.failure.None? && (v.failure.Some? ==> v.output == Null)
            && row.call == request.first.call && row.promptSha == origin.promptSha
            && (row.verdict.failure.Some? ==> row.verdict.output == Null)
  {
    RereadParts(j, request, held, origin, body);
    hide Reread, JudgedBytes;
  }

  lemma VerdictCases(v: Verdict, f1: Option<string>, f2: Option<string>, damaged: bool)
    requires v.failure.Some? ==> v.output == Null
    requires f2 != Some(PROMPT_MISMATCH) ==>
      v.failure != Some(PROMPT_MISMATCH)
      && (!MayReopen(f2) ==> v == Failing(if damaged then RAW_HASH_MISMATCH else f2.value))
    ensures var a := if f1 == Some(PROMPT_MISMATCH) then Mismatched(v) else v;
            var b := if f2 == Some(PROMPT_MISMATCH) then Mismatched(v) else v;
            var shown := if MayReopen(f2) then a else a.(output := Null, failure := f2);
            shown == b <==>
              !(damaged && !MayReopen(f2) && f2 !in {Some(PROMPT_MISMATCH), Some(RAW_HASH_MISMATCH)})
              && !(f1 == Some(PROMPT_MISMATCH) && MayReopen(f2))
  {}

  lemma BytesVerdict(j: RejudgeCall, request: Request, held: Row, owner: Row, body: string)
    requires Consistent(owner)
    ensures var v, f := JudgedBytes(j, request, held, Carry(j, held, owner, body).report, body), owner.verdict.failure;
            && (f != Some(PROMPT_MISMATCH) ==>
                  v.failure != Some(PROMPT_MISMATCH)
                  && (!MayReopen(f) ==> v == Failing(if Damaged(j, held, body) then RAW_HASH_MISMATCH else f.value)))
  {}

  lemma ShownVerdict(requests: seq<Request>, row: Row, owner: Row)
    requires Consistent(owner) && Asking(requests, owner) && row.call == owner.call && row.promptSha == owner.promptSha
    requires row.ok == row.verdict.failure.None? && (row.verdict.failure.Some? ==> row.verdict.output == Null)
    ensures var shown, f := Redisplay(requests, row, owner), owner.verdict.failure;
            && shown.verdict == (if MayReopen(f) then row.verdict else row.verdict.(output := Null, failure := f))
            && shown.ok == shown.verdict.failure.None?
  {
    hide Find;
  }
}
