/** What a drive and a tick that nothing stops get done, exactly. */
module AutopilotWork {
  import opened Seqs
  import opened Autopilot
  import opened AutopilotLaws

  function Min(a: nat, b: nat): nat { if a <= b then a else b }

  /** No operation of this mandate drains this lane of the flow with these inputs. */
  ghost predicate Unplanned(ops: seq<Op>, m: Mandate, flow: string, stage: string, lane: Lane) {
    forall i :: 0 <= i < |ops| ==>
      !(ops[i].plan.owner == Some(m) && ops[i].plan.flow == flow && ops[i].plan.stage == stage
        && ops[i].plan.inputs == lane.inputs)
  }

  /** The drain a lane gets: as many of its calls as are left, authorized in the mandate's name. */
  function Drained(m: Mandate, flow: string, stage: string, lane: Lane, left: nat): seq<Op> {
    if left == 0 || lane.calls == [] then []
    else [Op(Drain(flow, stage, lane.inputs, lane.calls[..Min(|lane.calls|, left)], Some(m)), Authorized(Some(m)))]
  }

  function Used(lane: Lane, left: nat): nat { Min(|lane.calls|, left) }

  lemma {:induction false} NotThere(ops: seq<Op>, plan: Drain)
    requires forall i :: 0 <= i < |ops| ==> ops[i].plan != plan
    ensures At(ops, plan) == |ops|
  {
    if ops != [] {
      assert forall i :: 0 <= i < |ops[1..]| ==> ops[1..][i] == ops[i + 1];
      NotThere(ops[1..], plan);
    }
  }

  lemma StageDoes(ops: seq<Op>, m: Mandate, flow: string, stage: string, lane: Lane, left: nat)
    requires lane.fate == Finishes && Unplanned(ops, m, flow, stage, lane)
    ensures RunStage(ops, m, flow, stage, lane, left) ==
      Driven(ops + Drained(m, flow, stage, lane, left), left - Used(lane, left), true)
  {
    var plan := Drain(flow, stage, lane.inputs, Prefix(lane.calls, left), Some(m));
    NotThere(ops, plan);
    assert Prefix(lane.calls, left) == lane.calls[..Min(|lane.calls|, left)];
    if left == 0 || lane.calls == [] {
      assert ops + [] == ops;
    } else {
      var planned := ops + [Op(plan, Planned)];
      assert planned[|ops| := Op(plan, Authorized(Some(m)))] == ops + [Op(plan, Authorized(Some(m)))];
    }
  }

  /** Both lanes of the flow are still to be planned. */
  ghost predicate Open(ops: seq<Op>, m: Mandate, flow: string, luck: Luck) {
    && Unplanned(ops, m, flow, "extract-drain", luck.extract) && Unplanned(ops, m, flow, "review-drain", luck.review)
  }

  predicate Lucky(luck: Luck) { luck.extract.fate == Finishes && luck.review.fate == Finishes }

  /** What one drive appends: the extraction drain, then the review drain under what it leaves. */
  function Both(m: Mandate, flow: string, luck: Luck, cap: nat): seq<Op> {
    Drained(m, flow, "extract-drain", luck.extract, cap)
    + Drained(m, flow, "review-drain", luck.review, cap - Used(luck.extract, cap))
  }

  function Calls(luck: Luck): nat { |luck.extract.calls| + |luck.review.calls| }

  /** A drive that nothing stops appends both drains, authorized in the mandate's name, extraction first,
      and spends as many calls as both lanes hold or all it was given. */
  lemma DriveRunsBothLanes(ops: seq<Op>, m: Mandate, flow: string, cap: nat, luck: Luck)
    requires Lucky(luck) && Open(ops, m, flow, luck)
    ensures Drive(ops, m, flow, cap, luck) == Driven(ops + Both(m, flow, luck, cap), cap - Min(Calls(luck), cap), true)
    ensures Reserved(Drive(ops, m, flow, cap, luck).ops, m) == Reserved(ops, m) + Min(Calls(luck), cap)
  {
    BothReserve(ops, m, flow, cap, luck);
    var first := Drained(m, flow, "extract-drain", luck.extract, cap);
    var left := cap - Used(luck.extract, cap);
    ReviewStillOpen(ops, m, flow, cap, luck);
    assert Used(luck.extract, cap) + Used(luck.review, left) == Min(Calls(luck), cap);
    hide Reserved, RunStage, Unplanned, Drained;
    StageDoes(ops, m, flow, "extract-drain", luck.extract, cap);
    StageDoes(ops + first, m, flow, "review-drain", luck.review, left);
    assert ops + first + Drained(m, flow, "review-drain", luck.review, left) == ops + Both(m, flow, luck, cap);
  }

  lemma BothReserve(ops: seq<Op>, m: Mandate, flow: string, cap: nat, luck: Luck)
    ensures Reserved(ops + Both(m, flow, luck, cap), m) == Reserved(ops, m) + Min(Calls(luck), cap)
  {
    hide Reserved, Drained;
    var first := Drained(m, flow, "extract-drain", luck.extract, cap);
    var left := cap - Used(luck.extract, cap);
    DrainedReserves(ops, m, flow, "extract-drain", luck.extract, cap);
    DrainedReserves(ops + first, m, flow, "review-drain", luck.review, left);
    assert ops + first + Drained(m, flow, "review-drain", luck.review, left) == ops + Both(m, flow, luck, cap);
  }

  lemma ReviewStillOpen(ops: seq<Op>, m: Mandate, flow: string, cap: nat, luck: Luck)
    requires Open(ops, m, flow, luck)
    ensures Unplanned(ops + Drained(m, flow, "extract-drain", luck.extract, cap), m, flow, "review-drain", luck.review)
  {
    assert "extract-drain"[0] != "review-drain"[0];
  }

  lemma DrainedReserves(ops: seq<Op>, m: Mandate, flow: string, stage: string, lane: Lane, left: nat)
    ensures Reserved(ops + Drained(m, flow, stage, lane, left), m) == Reserved(ops, m) + Used(lane, left)
  {
    var more := Drained(m, flow, stage, lane, left);
    if more == [] {
      assert ops + more == ops;
    } else {
      ReservedSnoc(ops, more[0], m);
    }
  }

  // ---------- a whole tick ----------

  function AllCalls(luck: seq<Luck>): nat { if luck == [] then 0 else Calls(luck[0]) + AllCalls(luck[1..]) }

  /** What a tick appends, flow by flow, each flow under what the ones before it leave. */
  function Work(m: Mandate, luck: seq<Luck>, i: nat, left: nat): seq<Op>
    requires i <= |m.flows| && |luck| == |m.flows| - i
    decreases |luck|
  {
    if luck == [] then []
    else Both(m, m.flows[i], luck[0], left) + Work(m, luck[1..], i + 1, left - Min(Calls(luck[0]), left))
  }

  ghost predicate AllOpen(ops: seq<Op>, m: Mandate, luck: seq<Luck>, i: nat) {
    |luck| == |m.flows| && forall k :: i <= k < |m.flows| ==> Open(ops, m, m.flows[k], luck[k])
  }

  lemma OthersStayOpen(ops: seq<Op>, m: Mandate, luck: seq<Luck>, i: nat, left: nat)
    requires i < |m.flows| && AllDifferent(m.flows) && AllOpen(ops, m, luck, i)
    ensures AllOpen(ops + Both(m, m.flows[i], luck[i], left), m, luck, i + 1)
  {
    var more := ops + Both(m, m.flows[i], luck[i], left);
    forall k | i < k < |m.flows| ensures Open(more, m, m.flows[k], luck[k]) {
      StaysOpen(ops, Both(m, m.flows[i], luck[i], left), m, m.flows[i], m.flows[k], luck[k]);
    }
  }

  lemma StaysOpen(ops: seq<Op>, more: seq<Op>, m: Mandate, flow: string, other: string, luck: Luck)
    requires Open(ops, m, other, luck) && flow != other && forall op :: op in more ==> op.plan.flow == flow
    ensures Open(ops + more, m, other, luck)
  {
    assert forall i :: |ops| <= i < |ops + more| ==> (ops + more)[i] in more;
  }

  lemma {:induction false} FlowsWork(events: seq<Event>, ops: seq<Op>, m: Mandate, luck: seq<Luck>, stops: nat, i: nat)
    requires i <= |m.flows| <= stops && AllDifferent(m.flows) && AllOpen(ops, m, luck, i)
    requires forall k :: i <= k < |luck| ==> Lucky(luck[k])
    requires Rows(events).Some? && m in Rows(events).value && Reserved(ops, m) <= m.cap
    ensures var left := m.cap - Reserved(ops, m); var after := OverFlows(events, ops, m, luck, stops, i);
      && after == ops + Work(m, luck[i..], i, left)
      && Reserved(after, m) == Reserved(ops, m) + Min(AllCalls(luck[i..]), left)
    decreases |m.flows| - i
  {
    hide Rows, Reserved, Drive, Open, Both;
    var left := m.cap - Reserved(ops, m);
    if i == |m.flows| {
      assert ops + [] == ops;
    } else {
      var driven := Drive(ops, m, m.flows[i], left, luck[i]);
      DriveRunsBothLanes(ops, m, m.flows[i], left, luck[i]);
      OthersStayOpen(ops, m, luck, i, left);
      FlowsWork(events, driven.ops, m, luck, stops, i + 1);
      assert luck[i..][0] == luck[i] && luck[i..][1..] == luck[i + 1..];
      var rest := Work(m, luck[i + 1..], i + 1, left - Min(Calls(luck[i]), left));
      assert (ops + Both(m, m.flows[i], luck[i], left)) + rest == ops + (Both(m, m.flows[i], luck[i], left) + rest);
    }
  }

  /** A tick that nothing stops drives every flow in turn: it appends exactly both drains of each, and
      spends all the calls there are, or all the mandate had left. */
  lemma TickDrivesEveryFlow(events: seq<Event>, ops: seq<Op>, m: Mandate, luck: seq<Luck>, stops: nat)
    requires |m.flows| <= stops && AllDifferent(m.flows) && AllOpen(ops, m, luck, 0)
    requires forall k :: 0 <= k < |luck| ==> Lucky(luck[k])
    requires Rows(events).Some? && m in Rows(events).value && Rows(events).value[m] && Reserved(ops, m) <= m.cap
    ensures var left := m.cap - Reserved(ops, m); var after := Ticked(events, ops, m, luck, stops);
      && after == ops + Work(m, luck, 0, left)
      && Reserved(after, m) == Min(m.cap, Reserved(ops, m) + AllCalls(luck))
  {
    hide Reserved, Work, OverFlows, AllCalls, AllOpen, Lucky;
    assert luck[0..] == luck;
    FlowsWork(events, ops, m, luck, stops, 0);
  }

  // ---------- nothing is given back ----------

  /** No mandate has less reserved than before. */
  ghost predicate GivesNothingBack(ops: seq<Op>, ops': seq<Op>) { forall m :: Reserved(ops, m) <= Reserved(ops', m) }

  lemma MovesOn(ops: seq<Op>, i: nat, op: Op)
    requires i < |ops| && op.plan == ops[i].plan && (ops[i].phase.Planned? || op.phase == Failed(ops[i].phase.under))
    ensures GivesNothingBack(ops, ops[i := op])
  {
    forall m ensures Reserved(ops, m) <= Reserved(ops[i := op], m) {
      ReservedUpdate(ops, i, op, m);
    }
  }

  lemma PlansMore(ops: seq<Op>, op: Op)
    ensures GivesNothingBack(ops, ops + [op])
  {
    forall m ensures Reserved(ops, m) <= Reserved(ops + [op], m) {
      ReservedSnoc(ops, op, m);
    }
  }

  lemma StageGivesNothingBack(ops: seq<Op>, m: Mandate, flow: string, stage: string, lane: Lane, left: nat)
    ensures GivesNothingBack(ops, RunStage(ops, m, flow, stage, lane, left).ops)
  {
    var plan := Drain(flow, stage, lane.inputs, Prefix(lane.calls, left), Some(m));
    AtIs(ops, plan);
    var i := At(ops, plan);
    var planned := if i < |ops| then ops else ops + [Op(plan, Planned)];
    if i == |ops| { PlansMore(ops, Op(plan, Planned)); }
    assert planned[i].plan == plan;
    var allowed := if planned[i].phase.Planned? then planned[i := Op(plan, Authorized(Some(m)))] else planned;
    if planned[i].phase.Planned? { MovesOn(planned, i, Op(plan, Authorized(Some(m)))); }
    MovesOn(allowed, i, Op(plan, Failed(allowed[i].phase.under)));
    hide Reserved, At;
  }

  lemma {:induction false} FlowsGiveNothingBack(events: seq<Event>, ops: seq<Op>, m: Mandate, luck: seq<Luck>,
                                                stops: nat, i: nat)
    requires i <= |m.flows|
    ensures GivesNothingBack(ops, OverFlows(events, ops, m, luck, stops, i))
    decreases |m.flows| - i
  {
    hide RunStage, Reserved, Rows;
    if i < |m.flows| && i < stops && i < |luck| && StatusOf(events, ops, m).Standing? {
      var cap, flow := StatusOf(events, ops, m).remaining, m.flows[i];
      var first := RunStage(ops, m, flow, "extract-drain", luck[i].extract, cap);
      StageGivesNothingBack(ops, m, flow, "extract-drain", luck[i].extract, cap);
      StageGivesNothingBack(first.ops, m, flow, "review-drain", luck[i].review, first.remaining);
      var driven := Drive(ops, m, flow, cap, luck[i]);
      if driven.alive { FlowsGiveNothingBack(events, driven.ops, m, luck, stops, i + 1); }
    }
  }

  /** No step of any run lowers what is reserved for any mandate: a failed, crashed or disabled drain
      still counts against the lifetime cap. */
  lemma NothingIsGivenBack(s: State, step: Step, m: Mandate)
    ensures Reserved(s.ops, m) <= Reserved(After(s, step).ops, m)
  {
    match step
    case TickStep(n, luck, stops) => FlowsGiveNothingBack(s.events, s.ops, n, luck, stops, 0);
    case OthersPlan(plan) => PlansMore(s.ops, Op(plan, Planned));
    case OthersAllow(plan) =>
      AtIs(s.ops, plan);
      var i := At(s.ops, plan);
      if i < |s.ops| && s.ops[i].phase.Planned? { MovesOn(s.ops, i, Op(plan, Authorized(None))); }
    case OthersFail(plan) =>
      AtIs(s.ops, plan);
      var i := At(s.ops, plan);
      if i < |s.ops| && s.ops[i].phase.Authorized? { MovesOn(s.ops, i, Op(plan, Failed(s.ops[i].phase.under))); }
    case _ =>
  }

  // ---------- how a stage ends, and what may be enabled ----------

  /** Each way a stage of a lane not yet planned can end: what it leaves behind, and that the drive ends
      there with nothing taken off the remainder. */
  lemma StageLeaves(ops: seq<Op>, m: Mandate, flow: string, stage: string, lane: Lane, left: nat)
    requires Unplanned(ops, m, flow, stage, lane) && left > 0 && lane.calls != [] && lane.fate != Finishes
    ensures var plan := Drain(flow, stage, lane.inputs, lane.calls[..Min(|lane.calls|, left)], Some(m));
      RunStage(ops, m, flow, stage, lane, left) == Driven(
        match lane.fate
        case DiesPlanned => ops + [Op(plan, Planned)]
        case DiesAuthorized => ops + [Op(plan, Authorized(Some(m)))]
        case ExecutionFails => ops + [Op(plan, Failed(Some(m)))]
        case _ => ops,
        left, false)
  {
    var plan := Drain(flow, stage, lane.inputs, Prefix(lane.calls, left), Some(m));
    NotThere(ops, plan);
    assert Prefix(lane.calls, left) == lane.calls[..Min(|lane.calls|, left)];
    var planned := ops + [Op(plan, Planned)];
    var allowed := planned[|ops| := Op(plan, Authorized(Some(m)))];
    assert allowed == ops + [Op(plan, Authorized(Some(m)))];
    assert allowed[|ops| := Op(plan, Failed(Some(m)))] == ops + [Op(plan, Failed(Some(m)))];
  }

  /** A drive whose extraction does not finish never reaches the review lane. */
  lemma DriveStopsWithItsStage(ops: seq<Op>, m: Mandate, flow: string, cap: nat, luck: Luck)
    requires Unplanned(ops, m, flow, "extract-drain", luck.extract) && cap > 0 && luck.extract.calls != []
    requires luck.extract.fate != Finishes
    ensures Drive(ops, m, flow, cap, luck) == RunStage(ops, m, flow, "extract-drain", luck.extract, cap)
    ensures !Drive(ops, m, flow, cap, luck).alive
  {
    StageLeaves(ops, m, flow, "extract-drain", luck.extract, cap);
  }

  /** A flow is free when no enabled mandate lists it. */
  ghost predicate Unclaimed(held: map<Mandate, bool>, flow: string) {
    forall m, i :: m in held && held[m] && 0 <= i < |m.flows| ==> m.flows[i] != flow
  }

  /** Enabling is accepted exactly when the ledger can be read and no enabled mandate lists any of the
      flows: one flow, or for a series at least one and no two alike. */
  lemma EnablesExactlyWhen(s: State, m: Mandate)
    ensures After(s, EnableStep(m, true)) == s.(events := s.events + [Enabled(m)]) <==>
      m.version == 2 && |m.flows| == 1 && Rows(s.events).Some? && Unclaimed(Rows(s.events).value, m.flows[0])
    ensures After(s, SeriesStep(m, true)) == s.(events := s.events + [Enabled(m)]) <==>
      && m.version == 3 && m.flows != [] && Rows(s.events).Some?
      && (forall i, k :: 0 <= i < |m.flows| && 0 <= k < |m.flows| && i != k ==> m.flows[i] != m.flows[k])
      && (forall i :: 0 <= i < |m.flows| ==> Unclaimed(Rows(s.events).value, m.flows[i]))
  {
    assert |s.events + [Enabled(m)]| == |s.events| + 1;
    if Rows(s.events).Some? { FreeExactlyWhen(Rows(s.events).value, m); }
    hide Rows, Free, Unclaimed;
    if AllDifferent(m.flows) {
      forall i, k | 0 <= i < |m.flows| && 0 <= k < |m.flows| && i != k ensures m.flows[i] != m.flows[k] {
        assert i < k || k < i;
      }
    }
  }

  lemma FreeExactlyWhen(held: map<Mandate, bool>, m: Mandate)
    ensures Free(held, Flows(m)) <==> forall i :: 0 <= i < |m.flows| ==> Unclaimed(held, m.flows[i])
  {
    if Free(held, Flows(m)) {
      forall i, o, k | 0 <= i < |m.flows| && o in held && held[o] && 0 <= k < |o.flows|
        ensures o.flows[k] != m.flows[i]
      {
        assert o.flows[k] in Flows(o) && m.flows[i] in Flows(m);
      }
    }
    if forall i :: 0 <= i < |m.flows| ==> Unclaimed(held, m.flows[i]) {
      forall o | o in held && held[o] ensures Flows(o) !! Flows(m) {
        forall flow | flow in Flows(m) ensures flow !in Flows(o) {
          var i :| 0 <= i < |m.flows| && m.flows[i] == flow;
          assert Unclaimed(held, m.flows[i]);
        }
      }
    }
  }
}
