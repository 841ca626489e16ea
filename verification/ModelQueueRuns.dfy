/** Runs from an empty queue that reach the two ways a re-judgement fails to settle. */
module ModelQueueRuns {
  import opened Seqs
  import opened JsonShape
  import opened ModelQueue
  import opened ModelQueueLaws
  import opened ModelQueueDrains
  import opened ModelQueueRejudges
  import opened ModelQueueRounds
  import opened ModelQueueCases

  const UNIT := Unit("call", "prompt", Obj(map[]), Asker(None, None), "")
  const REQUEST := Request(UNIT, [UNIT.asker], [])

  /** Rules under which no bytes parse, with bytes as their own hash. */
  const RULES := Rules(_ => None, (_, _) => [], (b: string) => b)
  const FACTS := Facts("harness", "", "start")

  function Asks(model: string, answer: Answer): DrainCall {
    DrainCall(RULES, Reader("b", model), _ => Reply(answer, FACTS, "end"), None, {}, None)
  }

  const AGAIN := RejudgeCall(RULES, None, None, "later")

  lemma WrittenQueue()
    ensures Run(false, [Writing([UNIT])]) == State([REQUEST], [], map[]) && Requests([REQUEST]) == [REQUEST]
  {
    assert [Writing([UNIT])][..0] == [] && [REQUEST][..0] == [];
    assert Requests([]) == [] && PutRequest([], REQUEST) == [REQUEST];
    assert UNIT.schema.fields.Keys - SUPPORTED == {};
    assert Accepts(UNIT.schema);
    assert Asked(false, None, UNIT) == Some(REQUEST);
    assert [] + [REQUEST] == [REQUEST];
    assert WriteFrom(false, [REQUEST], [UNIT], 1, 1).0 == [REQUEST];
  }

  lemma OneRow(requests: seq<Request>, sel: Selection, a: Row)
    requires IsOriginal(a) && Selected(sel, a)
    ensures Read(requests, sel, [a]) == Seen([a.key], map[a.key := Marked(requests, a)], map[PhysicalOf(a) := a])
  {
    hide Marked, PhysicalOf, Selected;
    assert Read(requests, sel, []) == Seen([], map[], map[]);
    ReadSnoc(requests, sel, [], a);
    assert [] + [a] == [a];
  }

  lemma TwoRows(requests: seq<Request>, sel: Selection, a: Row, b: Row)
    requires IsOriginal(a) && IsOriginal(b) && Selected(sel, a) && PhysicalOf(a) == PhysicalOf(b) && a.key != b.key
    ensures Read(requests, sel, [a, b]) ==
      Seen([a.key, b.key], map[a.key := Marked(requests, a), b.key := Marked(requests, b)], map[PhysicalOf(b) := b])
  {
    SamePhysical(sel, a, b);
    OneRow(requests, sel, a);
    ReadSnoc(requests, sel, [a], b);
    assert [a] + [b] == [a, b];
    hide Marked, PhysicalOf, Selected;
  }

  /** An unlimited drain of a one-call queue by a reader not yet shown asks that call. */
  lemma DrainsOne(s: State, d: DrainCall, r: Request)
    requires Requests(s.requests) == [r] && Unlimited(d)
    requires KeyFor(r, d.reader) !in Read([r], Selection(Some(d.reader.backend), None), s.results).shown
    ensures AfterDrain(s, d) == State(s.requests, s.results + [AnswerTo(s, d, r)], Stored(d, s.disk, r))
  {
    hide Read, AnswerRow, EarlierAttempts, Stored;
    UnlimitedChoosesAll(s, d);
    assert [r][1..] == [] && [r][..0] == [];
    var shown := Read([r], Selection(Some(d.reader.backend), None), s.results).shown;
    FilterOne(x => Waits(shown, d.reader, {}, x), r);
    assert Chosen(s, d) == [r];
    assert Answers(d, s.results, [r]) == [AnswerTo(s, d, r)];
    assert StoredAll(d, s.disk, []) == s.disk && StoredAll(d, s.disk, [r]) == Stored(d, s.disk, r);
  }

  // ---------- damage under an answer cut off ----------

  const CUTTING_OFF := Asks("m", Answer("partial", "m", None, "", true, false, None))
  const CUT_ROW := AnswerRow(CUTTING_OFF, 0, REQUEST)

  lemma CutRow()
    ensures CUT_ROW.key == Key("call", "b", "m") && CUT_ROW.call == "call" && IsOriginal(CUT_ROW)
    ensures CUT_ROW.rawSha == Some("partial") && CUT_ROW.rawPath == Some(PathOf("partial"))
    ensures CUT_ROW.verdict.failure == Some(TRUNCATED) && Marked([REQUEST], CUT_ROW) == CUT_ROW
  {
    hide PathOf;
    assert Find([REQUEST], "call") == Some(REQUEST);
  }

  const DAMAGE: seq<Step> :=
    [Writing([UNIT]), Draining(CUTTING_OFF), Disturbing(map[PathOf("partial") := "damaged"])]

  lemma DamageRuns()
    ensures Run(false, DAMAGE) == State([REQUEST], [CUT_ROW], map[PathOf("partial") := "damaged"])
  {
    hide PathOf, AnswerRow;
    WrittenQueue();
    var start := State([REQUEST], [], map[]);
    assert DAMAGE[..2][..1] == [Writing([UNIT])] && DAMAGE[..2][1] == Draining(CUTTING_OFF);
    assert Read([REQUEST], Selection(Some("b"), None), []) == Seen([], map[], map[]);
    DrainsOne(start, CUTTING_OFF, REQUEST);
    assert EarlierAttempts([], KeyFor(REQUEST, CUTTING_OFF.reader)) == 0;
    assert [] + [CUT_ROW] == [CUT_ROW];
    assert Run(false, DAMAGE[..2]).results == [CUT_ROW];
  }

  lemma DamageIsStuck(s: State, k: Key)
    requires s == State([REQUEST], [CUT_ROW], map[PathOf("partial") := "damaged"]) && Good(s)
    requires k == Key("call", "b", "m")
    ensures StuckAt(s, AGAIN, k)
  {
    hide AnswerRow, PathOf, Good, OriginalsOf;
    CutRow();
    WrittenQueue();
    OneRow([REQUEST], SelOf(AGAIN), CUT_ROW);
    FirstIsARow(s, AGAIN, k);
    var held := SeenIn(s, AGAIN).shown[k];
    assert held == CUT_ROW;
    hide Read, Requests, First;
    assert First(s, AGAIN, k) == CUT_ROW;
    assert Find([REQUEST], "call").Some?;
    assert "damaged"[0] != "partial"[0];
    assert Damaged(AGAIN, CUT_ROW, "damaged");
    assert !MayReopen(Some(TRUNCATED)) && TRUNCATED != PROMPT_MISMATCH && TRUNCATED != RAW_HASH_MISMATCH;
    assert Readable(Requests(s.requests), s.disk, held);
    assert s.disk[held.rawPath.value] == "damaged";
  }

  /** An answer cut off after some bytes, whose file is damaged afterwards, is stuck: every further
      re-judgement appends again. */
  lemma DamagedTruncationIsStuck()
    ensures var s := Run(false, DAMAGE);
            StuckAt(s, AGAIN, Key("call", "b", "m"))
            && AfterRejudge(AfterRejudge(s, AGAIN), AGAIN) != AfterRejudge(s, AGAIN)
  {
    hide Run, AnswerRow, PathOf, Good, AfterRejudge, StuckAt, OwnKeys;
    DamageRuns();
    CutRow();
    RunIsGood(false, DAMAGE);
    DamageIsStuck(Run(false, DAMAGE), Key("call", "b", "m"));
    NamedReadersOwnTheirs(Run(false, DAMAGE), AGAIN);
    OwnKeysSettleExactlyWhen(false, DAMAGE, AGAIN, "later");
  }

  // ---------- two readers of one answer ----------

  const PLAIN := Answer("x", "m", None, "", false, false, None)
  const UNDECLARED := AnswerRow(Asks("", PLAIN), 0, REQUEST)
  const DECLARED := AnswerRow(Asks("m", PLAIN), 0, REQUEST)

  /** A reader that declares no model and one that asks for the model the first one reported get the
      same physical identity for the same bytes, under different keys. */
  lemma UndeclaredModelCollides(a: DrainCall, b: DrainCall, earlier: nat, r: Request)
    requires a.rules.hash == b.rules.hash && a.ask(r).answer.body == b.ask(r).answer.body
    requires a.reader.backend == b.reader.backend && a.reader.model == "" && b.reader.model == a.ask(r).answer.model
    requires b.reader.model != ""
    ensures PhysicalOf(AnswerRow(a, earlier, r)) == PhysicalOf(AnswerRow(b, earlier, r))
    ensures AnswerRow(a, earlier, r).key != AnswerRow(b, earlier, r).key
  {
    hide Classify;
  }

  lemma PlainRows()
    ensures UNDECLARED.key == Key("call", "b", "") && DECLARED.key == Key("call", "b", "m")
    ensures IsOriginal(UNDECLARED) && IsOriginal(DECLARED) && PhysicalOf(UNDECLARED) == PhysicalOf(DECLARED)
    ensures UNDECLARED.call == "call" && UNDECLARED.backend == "b" && UNDECLARED.rawPath == Some(PathOf("x"))
    ensures Marked([REQUEST], UNDECLARED).rejudgedFrom.None? && Marked([REQUEST], UNDECLARED).call == "call"
    ensures Marked([REQUEST], UNDECLARED).rawPath == Some(PathOf("x"))
  {
    hide PathOf, Find;
    UndeclaredModelCollides(Asks("", PLAIN), Asks("m", PLAIN), 0, REQUEST);
  }

  const COLLISION: seq<Step> := [Writing([UNIT]), Draining(Asks("", PLAIN)), Draining(Asks("m", PLAIN))]

  lemma StoresPlain(model: string, disk: map<string, string>)
    requires disk == map[] || disk == map[PathOf("x") := "x"]
    ensures Stored(Asks(model, PLAIN), disk, REQUEST) == disk[PathOf("x") := "x"]
  {
    hide PathOf;
  }

  const ONE_ANSWER := State([REQUEST], [UNDECLARED], map[PathOf("x") := "x"])

  lemma FirstAnswers()
    ensures Run(false, COLLISION[..2]) == ONE_ANSWER
  {
    hide PathOf, AnswerRow, Stored;
    WrittenQueue();
    var first := Asks("", PLAIN);
    assert COLLISION[..2][..1] == [Writing([UNIT])] && COLLISION[..2][1] == Draining(first);
    assert Read([REQUEST], Selection(Some("b"), None), []) == Seen([], map[], map[]);
    DrainsOne(State([REQUEST], [], map[]), first, REQUEST);
    StoresPlain("", map[]);
    assert [] + [UNDECLARED] == [UNDECLARED];
    assert EarlierAttempts([], KeyFor(REQUEST, first.reader)) == 0;
  }

  const BOTH_ANSWERS := State([REQUEST], [UNDECLARED, DECLARED], map[PathOf("x") := "x"])

  lemma SecondAnswers()
    ensures AfterDrain(ONE_ANSWER, Asks("m", PLAIN)) == BOTH_ANSWERS
  {
    hide PathOf, AnswerRow, Stored, AfterDrain;
    PlainRows();
    assert Requests([REQUEST]) == [REQUEST] by { WrittenQueue(); }
    var second := Asks("m", PLAIN);
    OneRow([REQUEST], Selection(Some("b"), None), UNDECLARED);
    NoAttempts([UNDECLARED], KeyFor(REQUEST, second.reader));
    hide Read, Requests;
    DrainsOne(ONE_ANSWER, second, REQUEST);
    StoresPlain("m", ONE_ANSWER.disk);
    assert [UNDECLARED] + [DECLARED] == [UNDECLARED, DECLARED];
    assert ONE_ANSWER.disk[PathOf("x") := "x"] == ONE_ANSWER.disk;
  }

  lemma CollisionRuns()
    ensures Run(false, COLLISION) == BOTH_ANSWERS
  {
    hide PathOf, AnswerRow, Stored, AfterDrain;
    FirstAnswers();
    SecondAnswers();
  }

  lemma CollisionDisowns(s: State)
    requires s == State([REQUEST], [UNDECLARED, DECLARED], map[PathOf("x") := "x"])
    ensures Disowned(s, AGAIN, Key("call", "b", ""))
  {
    hide AnswerRow, PathOf, Marked;
    PlainRows();
    WrittenQueue();
    TwoRows([REQUEST], SelOf(AGAIN), UNDECLARED, DECLARED);
    hide Read, Requests;
    assert Find([REQUEST], "call").Some?;
  }

  /** The run in which both readers answer one call: the undeclared one owns nothing, so however often
      the queue is re-judged, its original stays what is shown and is read and appended again. */
  lemma CollidingReadersNeverSettle(n: nat)
    ensures var s, k := Run(false, COLLISION), Key("call", "b", "");
            Disowned(s, AGAIN, k) && AfterRejudge(Rejudges(s, AGAIN, n), AGAIN) != Rejudges(s, AGAIN, n)
  {
    hide Run, AnswerRow, PathOf, Good, Rejudges, AfterRejudge, Disowned;
    CollisionRuns();
    RunIsGood(false, COLLISION);
    CollisionDisowns(Run(false, COLLISION));
    DisownedNeverSettles(Run(false, COLLISION), AGAIN, Key("call", "b", ""), n);
  }
}
