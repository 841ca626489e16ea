/** What the rounds mean for particular queues: readers that own what they show, readers that do not,
    and runs that reach both failures. */
module ModelQueueCases {
  import opened Seqs
  import opened JsonShape
  import opened ModelQueue
  import opened ModelQueueLaws
  import opened ModelQueueRejudges
  import opened ModelQueueRounds

  // ---------- keys that own what they show ----------

  /** A readable shown answer whose damage its first judgement hides. */
  ghost predicate StuckAt(s: State, j: RejudgeCall, k: Key) {
    k in SeenIn(s, j).shown &&
    var held := SeenIn(s, j).shown[k];
    Readable(Requests(s.requests), s.disk, held) && Stuck(j, held, First(s, j, k), s.disk[held.rawPath.value])
  }

  /** No readable shown answer has its identity owned by another key. */
  ghost predicate OwnKeys(s: State, j: RejudgeCall) {
    forall k :: k in SeenIn(s, j).shown && Reading(s, j, k).Some? ==> Owner(s, j, k).key == k
  }

  lemma StuckIsRead(s: State, j: RejudgeCall, k: Key)
    requires Good(s) && StuckAt(s, j, k)
    ensures Reading(s, j, k).Some?
  {
    KeyFacts(s, j, k);
    var requests, held, first := Requests(s.requests), SeenIn(s, j).shown[k], First(s, j, k);
    hide Read, Requests, First, Good, Owner, Reread, Find, Consistent, Asking;
    AlikeModel(requests, held, first);
    BytesOverrule(j, Find(requests, held.call).value, held, first, s.disk[held.rawPath.value]);
  }

  lemma BytesOverrule(j: RejudgeCall, request: Request, held: Row, first: Row, body: string)
    requires Consistent(first) && (held.model == "" ==> first.report.model == "") && Stuck(j, held, first, body)
    ensures Reread(j, request, held, first, body).verdict.failure == Some(RAW_HASH_MISMATCH)
  {
    VerdictOf(j, request, held, first, body);
    BytesVerdict(j, request, held, first, body);
    hide Reread, JudgedBytes, Carry, Consistent;
  }

  lemma QuietWhenOwn(s: State, j: RejudgeCall, k: Key)
    requires Good(s) && OwnKeys(s, j) && k in SeenIn(s, j).shown
    ensures Quiet(s, j, k) <==> !StuckAt(s, j, k)
  {
    var order := SeenIn(s, j).order;
    OrderIsShown(Requests(s.requests), SelOf(j), s.results);
    ClaimantClaims(s, j, order, k);
    KeyFacts(s, j, k);
    if StuckAt(s, j, k) { StuckIsRead(s, j, k); }
    hide Read, Requests, Good, Stuck, Reading, Owner, First, LastClaimant, Alike, Behind;
    if Reading(s, j, k).Some? {
      assert Claims(s, j, k, k) && LastClaimant(s, j, order, k) == Some(k);
      ReadableHeld(s, j, k);
      AgreesWithItself(j, SeenIn(s, j).shown[k], First(s, j, k), s.disk[SeenIn(s, j).shown[k].rawPath.value]);
    } else {
      assert LastClaimant(s, j, order, k).None?;
    }
  }

  /** Over every run in which keys own what they show: re-judging again appends nothing if and only if
      no shown answer's stored bytes are damaged under a first judgement that bytes cannot overturn. */
  lemma OwnKeysSettleExactlyWhen(review: bool, steps: seq<Step>, j: RejudgeCall, at: string)
    requires j.schema.None? && OwnKeys(Run(review, steps), j)
    ensures var s := Run(review, steps);
            var once := AfterRejudge(s, j);
            AfterRejudge(once, j.(at := at)) == once <==> forall k :: !StuckAt(s, j, k)
  {
    RunIsGood(review, steps);
    var s := Run(review, steps);
    SecondRejudgeIsSilentExactlyWhen(review, steps, j, at);
    hide Run, Good, Quiet, OwnKeys, AfterRejudge;
    forall k | k in SeenIn(s, j).shown ensures Quiet(s, j, k) <==> !StuckAt(s, j, k) { QuietWhenOwn(s, j, k); }
  }

  /** It is enough that every reader names its model. */
  lemma NamedReadersOwnTheirs(s: State, j: RejudgeCall)
    requires Good(s)
    requires forall i :: 0 <= i < |s.results| && IsOriginal(s.results[i]) ==> s.results[i].key.reader != ""
    ensures OwnKeys(s, j)
  {
    forall k | k in SeenIn(s, j).shown ensures Owner(s, j, k).key == k {
      KeyFacts(s, j, k);
      NamedOwner(s, j, k);
    }
  }

  lemma OwnerIsARow(s: State, j: RejudgeCall, k: Key)
    requires Good(s) && k in SeenIn(s, j).shown
    ensures Owner(s, j, k) in s.results
  {
    KeyFacts(s, j, k);
    OriginsHold(Requests(s.requests), SelOf(j), s.results);
    hide Read, Requests, Good, Alike, Behind, First, PhysicalOf, Selected;
  }

  lemma FirstIsARow(s: State, j: RejudgeCall, k: Key)
    requires Good(s) && k in SeenIn(s, j).shown
    ensures First(s, j, k) in s.results
  {
    hide Read, Requests, Consistent, Asking, EarlierAttempts, Followed, PhysicalOf;
    ShownIsSourced(Requests(s.requests), SelOf(j), s.results);
    var held := SeenIn(s, j).shown[k];
    assert Sourced(s.results, k, held);
    var o :| 0 <= o < |s.results| && Behind(s.results[o], k, held);
    TheOrigin(s.results, o, k, held);
  }

  lemma NamedOwner(s: State, j: RejudgeCall, k: Key)
    requires Good(s) && k in SeenIn(s, j).shown
    requires forall i :: 0 <= i < |s.results| && IsOriginal(s.results[i]) ==> s.results[i].key.reader != ""
    ensures Owner(s, j, k).key == k
  {
    KeyFacts(s, j, k);
    OwnerIsARow(s, j, k);
    FirstIsARow(s, j, k);
    var owner, first, held := Owner(s, j, k), First(s, j, k), SeenIn(s, j).shown[k];
    hide SeenIn, Owner, First, Good, Consistent, Asking, PhysicalOf;
    var i :| 0 <= i < |s.results| && s.results[i] == owner;
    var o :| 0 <= o < |s.results| && s.results[o] == first;
    SameReader(owner, first, held);
  }

  lemma SameReader(a: Row, b: Row, held: Row)
    requires Consistent(a) && Consistent(b) && PhysicalOf(a) == PhysicalOf(held) == PhysicalOf(b)
    requires a.key.reader != "" && b.key.reader != ""
    ensures a.key == b.key
  {
    hide MayReopen, Reported;
  }

  // ---------- the current rules ----------

  /** The verdict of the current rules on bytes alone: no bytes are empty, unparsed ones not JSON, a
      problem makes them invalid, and otherwise what they parse to is the output. */
  function Judged(j: RejudgeCall, held: Row, request: Request, body: string): Verdict {
    var schema := if held.judged != Null then held.judged else request.first.schema;
    if body == "" then Verdict(Null, Some("EMPTY"), [])
    else if j.rules.parse(body).None? then Verdict(Null, Some("NOT_JSON"), [])
    else
      var value := j.rules.parse(body).value;
      if j.rules.problems(value, schema) == [] then Verdict(value, None, [])
      else Verdict(Null, Some("SCHEMA_INVALID"), j.rules.problems(value, schema))
  }

  /** The runner reported nothing against the first answer, and only its bytes were found wanting, if
      anything was. */
  predicate JudgedByBytes(first: Row) {
    && !Truthy(first.report.failure) && !first.report.refused && !first.report.truncated
    && (first.verdict.failure.Some? ==> first.verdict.failure.value in {"NOT_JSON", "SCHEMA_INVALID", "EMPTY"})
  }

  lemma RereadByRules(j: RejudgeCall, request: Request, held: Row, origin: Row, body: string)
    requires j.schema.None? && !Damaged(j, held, body) && JudgedByBytes(origin)
    ensures Reread(j, request, held, origin, body).verdict == Judged(j, held, request, body)
  {}

  /** The answer shown under `k` rests on its bytes alone, and they are readable and intact. */
  ghost predicate RestsOnBytes(s: State, j: RejudgeCall, k: Key) {
    k in SeenIn(s, j).shown &&
    var held := SeenIn(s, j).shown[k];
    && Readable(Requests(s.requests), s.disk, held) && !Damaged(j, held, s.disk[held.rawPath.value])
    && JudgedByBytes(First(s, j, k))
  }

  /** Nothing but `k`'s own reading is shown under `k`. */
  ghost predicate OwnsAlone(s: State, j: RejudgeCall, k: Key) {
    k in SeenIn(s, j).shown && Owner(s, j, k).key == k && forall c :: c != k ==> !Claims(s, j, c, k)
  }

  lemma OwnReadingIsShown(s: State, j: RejudgeCall, k: Key)
    requires Good(s) && OwnsAlone(s, j, k)
    ensures var after := SeenIn(AfterRejudge(s, j), j).shown;
            k in after && after[k] == (if Reading(s, j, k).None? then SeenIn(s, j).shown[k]
                                       else Redisplay(Requests(s.requests), Reading(s, j, k).value, First(s, j, k)))
  {
    var order := SeenIn(s, j).order;
    OrderIsShown(Requests(s.requests), SelOf(j), s.results);
    RejudgeShows(s, j);
    ClaimantClaims(s, j, order, k);
    KeyFacts(s, j, k);
    if Reading(s, j, k).Some? { ReadingKeeps(s, j, k); }
    hide Read, Requests, Good, Reading, Owner, First, LastClaimant, Alike, Behind, Redisplay, AfterRejudge;
    assert Reading(s, j, k).Some? ==> Claims(s, j, k, k) && LastClaimant(s, j, order, k) == Some(k);
    assert Reading(s, j, k).None? ==> LastClaimant(s, j, order, k) == None;
    assert Reading(s, j, k).Some? ==> Reading(s, j, k).value.(key := k) == Reading(s, j, k).value;
  }

  /** After a re-judgement, an answer that rests on its intact bytes alone, under a key that alone owns
      what it shows, is shown with exactly the verdict of the current rules. */
  lemma CurrentRulesAreShown(review: bool, steps: seq<Step>, j: RejudgeCall, k: Key)
    requires var s := Run(review, steps); j.schema.None? && RestsOnBytes(s, j, k) && OwnsAlone(s, j, k)
    ensures var s := Run(review, steps);
            var held, after := SeenIn(s, j).shown[k], SeenIn(AfterRejudge(s, j), j).shown;
            k in after &&
            after[k].verdict == Judged(j, held, Find(Requests(s.requests), held.call).value, s.disk[held.rawPath.value])
  {
    RunIsGood(review, steps);
    hide Run;
    KeyShowsRules(Run(review, steps), j, k);
  }

  lemma KeyShowsRules(s: State, j: RejudgeCall, k: Key)
    requires Good(s) && j.schema.None? && RestsOnBytes(s, j, k) && OwnsAlone(s, j, k)
    ensures var held, after := SeenIn(s, j).shown[k], SeenIn(AfterRejudge(s, j), j).shown;
            k in after &&
            after[k].verdict == Judged(j, held, Find(Requests(s.requests), held.call).value, s.disk[held.rawPath.value])
  {
    OwnReadingIsShown(s, j, k);
    KeyFacts(s, j, k);
    var requests, held, first := Requests(s.requests), SeenIn(s, j).shown[k], First(s, j, k);
    var body, request := s.disk[held.rawPath.value], Find(requests, held.call).value;
    RereadByRules(j, request, held, first, body);
    ShownAsOwnExactlyWhen(j, requests, held, first, first, body);
    AgreesWithItself(j, held, first, body);
    AlikeModel(requests, held, first);
    RereadParts(j, request, held, first, body);
    if Reading(s, j, k).Some? { ReadingIs(s, j, k); }
    hide Read, Requests, Reread, Judged, Good, Redisplay, First, Owner, Find, Alike, Damaged, AfterRejudge, JudgedBytes;
    assert Reread(j, request, held, first, body).(key := first.key) == Reread(j, request, held, first, body);
  }

  // ---------- an identity another key owns ----------

  /** In any good state: a readable shown original whose identity another key owns is read and appended,
      and unless another key's reading is shown in its place, read and appended again next time. */
  lemma ForeignIsAppendedAgain(s: State, j: RejudgeCall, at: string, k: Key)
    requires Good(s) && j.schema.None? && k in SeenIn(s, j).shown && IsOriginal(SeenIn(s, j).shown[k])
    requires Readable(Requests(s.requests), s.disk, SeenIn(s, j).shown[k]) && Owner(s, j, k).key != k
    ensures Reading(s, j, k).Some? && !Claims(s, j, k, k)
    ensures (forall c :: !Claims(s, j, c, k)) ==> More(AfterRejudge(s, j), j.(at := at)) != []
  {
    hide Read, Requests, Good, Owner, Reread, More, AfterRejudge;
    SecondRound(s, j, at);
    ClaimantClaims(s, j, SeenIn(s, j).order, k);
    assert (forall c :: !Claims(s, j, c, k)) ==> !Quiet(s, j, k);
  }

  /** A shown original stays shown through a round if and only if no reading is shown under its key. */
  lemma OriginalStaysExactlyWhen(s: State, j: RejudgeCall, k: Key)
    requires Good(s) && k in SeenIn(s, j).shown && IsOriginal(SeenIn(s, j).shown[k])
    ensures var after := SeenIn(AfterRejudge(s, j), j).shown;
            k in after && (IsOriginal(after[k]) <==> forall c :: !Claims(s, j, c, k))
    ensures var after := SeenIn(AfterRejudge(s, j), j).shown;
            (forall c :: !Claims(s, j, c, k)) ==> after[k] == SeenIn(s, j).shown[k]
  {
    var order := SeenIn(s, j).order;
    OrderIsShown(Requests(s.requests), SelOf(j), s.results);
    RejudgeShows(s, j);
    ClaimantClaims(s, j, order, k);
    var c := LastClaimant(s, j, order, k);
    if c.Some? {
      ReadingKeeps(s, j, c.value);
      DisplayKeeps(Requests(s.requests), Reading(s, j, c.value).value.(key := k), Owner(s, j, c.value));
    }
    hide Read, Requests, Good, Reading, Owner, First, LastClaimant, Redisplay, AfterRejudge;
    forall x | x !in order ensures !Claims(s, j, x, k) {}
  }

  /** No identity is owned by `k`: other readers gave the same bytes later, every time. */
  ghost predicate OwnsNothing(s: State, j: RejudgeCall, k: Key) {
    forall p :: p in SeenIn(s, j).origins ==> SeenIn(s, j).origins[p].key != k
  }

  /** `k` shows its original, which can be read, and owns nothing. */
  ghost predicate Disowned(s: State, j: RejudgeCall, k: Key) {
    k in SeenIn(s, j).shown && IsOriginal(SeenIn(s, j).shown[k]) && OwnsNothing(s, j, k)
    && Readable(Requests(s.requests), s.disk, SeenIn(s, j).shown[k])
  }

  function Rejudges(s: State, j: RejudgeCall, n: nat): State {
    if n == 0 then s else AfterRejudge(Rejudges(s, j, n - 1), j)
  }

  lemma RejudgeKeepsGood(s: State, j: RejudgeCall)
    requires Good(s)
    ensures Good(AfterRejudge(s, j))
  {
    hide Good;
    NewAreReadings(s, j);
    ReadingsKeepGood(s, RejudgedRows(j, Requests(s.requests), s.disk, s.results));
  }

  lemma DisownedStays(s: State, j: RejudgeCall, k: Key)
    requires Good(s) && Disowned(s, j, k)
    ensures Disowned(AfterRejudge(s, j), j, k) && SeenIn(AfterRejudge(s, j), j).shown[k] == SeenIn(s, j).shown[k]
  {
    var order := SeenIn(s, j).order;
    RejudgeShows(s, j);
    ClaimantClaims(s, j, order, k);
    var c := LastClaimant(s, j, order, k);
    if c.Some? {
      KeyFacts(s, j, c.value);
    }
    assert AfterRejudge(s, j).requests == s.requests && AfterRejudge(s, j).disk == s.disk;
    hide Read, Requests, Good, Reading, Owner, First, LastClaimant, Alike, Behind, Redisplay, AfterRejudge;
  }

  lemma DisownedIsReadAgain(s: State, j: RejudgeCall, k: Key)
    requires Good(s) && Disowned(s, j, k)
    ensures More(s, j) != []
  {
    hide Read, Requests, Good, Reread;
    var seen := SeenIn(s, j);
    OrderIsShown(Requests(s.requests), SelOf(j), s.results);
    SilentExactlyWhen(j, Requests(s.requests), s.disk, OriginalsOf(s.results), seen.shown, seen.order);
    assert k in seen.order;
  }

  /** A readable shown original whose key owns nothing is never settled: it stays what is shown, and
      every further re-judgement appends again. */
  lemma {:induction false} DisownedNeverSettles(s: State, j: RejudgeCall, k: Key, n: nat)
    requires Good(s) && Disowned(s, j, k)
    ensures var then' := Rejudges(s, j, n);
            Good(then') && Disowned(then', j, k) && SeenIn(then', j).shown[k] == SeenIn(s, j).shown[k]
            && AfterRejudge(then', j) != then'
  {
    hide Good, Disowned, SeenIn, AfterRejudge;
    if n > 0 {
      DisownedNeverSettles(s, j, k, n - 1);
      RejudgeKeepsGood(Rejudges(s, j, n - 1), j);
      DisownedStays(Rejudges(s, j, n - 1), j, k);
    }
    DisownedIsReadAgain(Rejudges(s, j, n), j, k);
    AppendsMeansChanges(Rejudges(s, j, n), j);
  }

  lemma AppendsMeansChanges(s: State, j: RejudgeCall)
    requires More(s, j) != []
    ensures AfterRejudge(s, j) != s
  {
    hide RejudgedRows, Requests;
    assert |s.results + More(s, j)| == |s.results| + |More(s, j)|;
  }
}
