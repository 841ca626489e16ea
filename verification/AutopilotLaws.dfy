/** Every run of enabling, disabling and ticking, with crashes, restarts and other people's operations. */
module AutopilotLaws {
  import opened Seqs
  import opened Autopilot

  datatype Step =
    | EnableStep(m: Mandate, fit: bool)
    | SeriesStep(m: Mandate, fit: bool)
    | DisableStep(m: Mandate)
    | TickStep(m: Mandate, luck: seq<Luck>, stops: nat)
    | OthersPlan(plan: Drain)
    | OthersAllow(plan: Drain)
    | OthersFail(plan: Drain)

  datatype State = State(events: seq<Event>, ops: seq<Op>)

  /** Operators may plan, authorize and fail operations of their own, or authorize one that a crashed
      tick left planned; none of it is done in a mandate's name. */
  function After(s: State, step: Step): State {
    match step
    case EnableStep(m, fit) =>
      if m.version == 2 && |m.flows| == 1 && fit && Rows(s.events).Some? && Free(Rows(s.events).value, Flows(m))
      then s.(events := s.events + [Enabled(m)]) else s
    case SeriesStep(m, fit) =>
      if m.version == 3 && fit && m.flows != [] && AllDifferent(m.flows) && Rows(s.events).Some?
         && Free(Rows(s.events).value, Flows(m))
      then s.(events := s.events + [Enabled(m)]) else s
    case DisableStep(m) =>
      if Rows(s.events).Some? && m in Rows(s.events).value && Rows(s.events).value[m]
      then s.(events := s.events + [Disabled(m)]) else s
    case TickStep(m, luck, stops) => s.(ops := Ticked(s.events, s.ops, m, luck, stops))
    case OthersPlan(plan) => if At(s.ops, plan) == |s.ops| then s.(ops := s.ops + [Op(plan, Planned)]) else s
    case OthersAllow(plan) =>
      var i := At(s.ops, plan);
      if i < |s.ops| && s.ops[i].phase.Planned? then s.(ops := s.ops[i := Op(plan, Authorized(None))]) else s
    case OthersFail(plan) =>
      var i := At(s.ops, plan);
      if i < |s.ops| && s.ops[i].phase.Authorized?
      then s.(ops := s.ops[i := Op(plan, Failed(s.ops[i].phase.under))]) else s
  }

  function Run(steps: seq<Step>): State {
    if steps == [] then State([], []) else After(Run(steps[..|steps| - 1]), steps[|steps| - 1])
  }

  predicate Enables(step: Step) { step.EnableStep? || step.SeriesStep? }

  // ---------- the invariant ----------

  ghost predicate Apart(held: map<Mandate, bool>) {
    forall a, b :: a in held && b in held && held[a] && held[b] && a != b ==> Flows(a) !! Flows(b)
  }

  /** Every mandate stays within its cap. */
  ghost predicate WithinCaps(ops: seq<Op>) { forall m :: Reserved(ops, m) <= m.cap }

  /** Only mandates in the ledger hold reservations. */
  ghost predicate Ledgered(s: State) {
    forall i, m :: 0 <= i < |s.ops| && Under(s.ops[i].phase, m) ==> Enabled(m) in s.events
  }

  ghost predicate Good(s: State) {
    (Rows(s.events).Some? ==> Apart(Rows(s.events).value)) && WithinCaps(s.ops) && Ledgered(s)
  }

  lemma RowsSnoc(events: seq<Event>, e: Event)
    requires Rows(events).Some?
    ensures Rows(events + [e]) == Fold(Rows(events).value, e)
  {
    assert (events + [e])[..|events|] == events;
  }

  // ---------- reservations ----------

  function Weight(op: Op, m: Mandate): nat { if Under(op.phase, m) then |op.plan.calls| else 0 }

  lemma ReservedSnoc(ops: seq<Op>, op: Op, m: Mandate)
    ensures Reserved(ops + [op], m) == Reserved(ops, m) + Weight(op, m)
  {
    assert (ops + [op])[..|ops|] == ops;
  }

  lemma {:induction false} ReservedUpdate(ops: seq<Op>, i: nat, op: Op, m: Mandate)
    requires i < |ops|
    ensures Reserved(ops[i := op], m) == Reserved(ops, m) - Weight(ops[i], m) + Weight(op, m)
  {
    var n := |ops| - 1;
    if i == n {
      assert ops[i := op][..n] == ops[..n];
    } else {
      assert ops[i := op][..n] == ops[..n][i := op];
      ReservedUpdate(ops[..n], i, op, m);
    }
  }

  lemma {:induction false} NoneReserved(ops: seq<Op>, m: Mandate)
    requires forall i :: 0 <= i < |ops| ==> !Under(ops[i].phase, m)
    ensures Reserved(ops, m) == 0
  {
    if ops != [] {
      NoneReserved(ops[..|ops| - 1], m);
    }
  }

  /** `ops'` grew from `ops` in the name of `m` alone, by at most `spent` calls. */
  ghost predicate Spends(ops: seq<Op>, ops': seq<Op>, m: Mandate, spent: nat) {
    && Reserved(ops', m) <= Reserved(ops, m) + spent
    && (forall other :: other != m ==> Reserved(ops', other) == Reserved(ops, other))
    && (forall i, other :: 0 <= i < |ops'| && Under(ops'[i].phase, other) ==>
          other == m || exists j :: 0 <= j < |ops| && Under(ops[j].phase, other))
  }

  lemma SpendsTwice(a: seq<Op>, b: seq<Op>, c: seq<Op>, m: Mandate, x: nat, y: nat)
    requires Spends(a, b, m, x) && Spends(b, c, m, y)
    ensures Spends(a, c, m, x + y)
  {
    hide Under, Reserved;
    forall i, other | 0 <= i < |c| && Under(c[i].phase, other)
      ensures other == m || exists j :: 0 <= j < |a| && Under(a[j].phase, other)
    {
      if other != m {
        var j :| 0 <= j < |b| && Under(b[j].phase, other);
      }
    }
  }

  lemma NewPlanSpends(ops: seq<Op>, plan: Drain, m: Mandate)
    ensures Spends(ops, ops + [Op(plan, Planned)], m, 0)
  {
    var longer := ops + [Op(plan, Planned)];
    forall other ensures Reserved(longer, other) == Reserved(ops, other) {
      ReservedSnoc(ops, Op(plan, Planned), other);
    }
    forall i, other | 0 <= i < |longer| && Under(longer[i].phase, other)
      ensures exists j :: 0 <= j < |ops| && Under(ops[j].phase, other)
    {
      assert longer[i] == ops[i];
    }
  }

  lemma UpdateSpends(ops: seq<Op>, i: nat, op: Op, m: Mandate, spent: nat)
    requires i < |ops| && op.plan == ops[i].plan
    requires forall other :: other != m ==> (Under(op.phase, other) <==> Under(ops[i].phase, other))
    requires Under(op.phase, m) ==> Under(ops[i].phase, m) || |op.plan.calls| <= spent
    ensures Spends(ops, ops[i := op], m, spent)
  {
    var next := ops[i := op];
    forall other ensures Reserved(next, other) == Reserved(ops, other) - Weight(ops[i], other) + Weight(op, other) {
      ReservedUpdate(ops, i, op, other);
    }
    forall k, other | 0 <= k < |next| && Under(next[k].phase, other) && other != m
      ensures exists j :: 0 <= j < |ops| && Under(ops[j].phase, other)
    {
      assert Under(ops[k].phase, other);
    }
  }

  /** One drain stage spends at most what it takes off the remainder, and at most the remainder
      when it dies. */
  lemma StageSpends(ops: seq<Op>, m: Mandate, flow: string, stage: string, lane: Lane, remaining: nat)
    ensures var d := RunStage(ops, m, flow, stage, lane, remaining);
            d.remaining <= remaining && Spends(ops, d.ops, m, if d.alive then remaining - d.remaining else remaining)
  {
    hide Reserved, Spends, At;
    var plan := Drain(flow, stage, lane.inputs, Prefix(lane.calls, remaining), Some(m));
    var i := At(ops, plan);
    assert i <= |ops| && (i < |ops| ==> ops[i].plan == plan) by { AtIs(ops, plan); }
    NothingSpends(ops, m, 0);
    NothingSpends(ops, m, remaining);
    var planned := if i < |ops| then ops else ops + [Op(plan, Planned)];
    if i == |ops| { NewPlanSpends(ops, plan, m); }
    assert Spends(ops, planned, m, 0);
    SpendsMore(ops, planned, m, 0, remaining);
    var op := planned[i];
    var allowed := if op.phase.Planned? then planned[i := Op(plan, Authorized(Some(m)))] else planned;
    if op.phase.Planned? {
      UpdateSpends(planned, i, Op(plan, Authorized(Some(m))), m, |plan.calls|);
      SpendsTwice(ops, planned, allowed, m, 0, |plan.calls|);
    }
    SpendsMore(ops, planned, m, 0, |plan.calls|);
    assert Spends(ops, allowed, m, |plan.calls|);
    SpendsMore(ops, allowed, m, |plan.calls|, remaining);
    if !allowed[i].phase.Planned? {
      var failed := Op(plan, Failed(allowed[i].phase.under));
      UpdateSpends(allowed, i, failed, m, 0);
      SpendsTwice(ops, allowed, allowed[i := failed], m, |plan.calls|, 0);
      SpendsMore(ops, allowed[i := failed], m, |plan.calls|, remaining);
    }
  }

  lemma AtIs(ops: seq<Op>, plan: Drain)
    ensures At(ops, plan) <= |ops| && (At(ops, plan) < |ops| ==> ops[At(ops, plan)].plan == plan)
  {}

  lemma NothingSpends(ops: seq<Op>, m: Mandate, spent: nat)
    ensures Spends(ops, ops, m, spent)
  {}

  lemma SpendsMore(a: seq<Op>, b: seq<Op>, m: Mandate, x: nat, y: nat)
    requires Spends(a, b, m, x) && x <= y
    ensures Spends(a, b, m, y)
  {}

  /** A drive never reserves more than the ceiling it is passed, however it ends. */
  lemma DriveSpendsAtMostItsCap(ops: seq<Op>, m: Mandate, flow: string, cap: nat, luck: Luck)
    ensures Spends(ops, Drive(ops, m, flow, cap, luck).ops, m, cap)
  {
    hide RunStage, Spends;
    var first := RunStage(ops, m, flow, "extract-drain", luck.extract, cap);
    StageSpends(ops, m, flow, "extract-drain", luck.extract, cap);
    if first.alive {
      var second := RunStage(first.ops, m, flow, "review-drain", luck.review, first.remaining);
      StageSpends(first.ops, m, flow, "review-drain", luck.review, first.remaining);
      SpendsMore(first.ops, second.ops, m, if second.alive then first.remaining - second.remaining else first.remaining,
                 first.remaining);
      SpendsTwice(ops, first.ops, second.ops, m, cap - first.remaining, first.remaining);
    }
  }

  lemma {:induction false} FlowsSpend(events: seq<Event>, ops: seq<Op>, m: Mandate, luck: seq<Luck>, stops: nat, i: nat)
    requires i <= |m.flows| && Reserved(ops, m) <= m.cap
    ensures var after := OverFlows(events, ops, m, luck, stops, i);
            Reserved(after, m) <= m.cap && Spends(ops, after, m, m.cap - Reserved(ops, m))
    decreases |m.flows| - i
  {
    hide Drive, Rows, Spends, Reserved;
    NothingSpends(ops, m, m.cap - Reserved(ops, m));
    if i < |m.flows| && i < stops && i < |luck| {
      var status := StatusOf(events, ops, m);
      if status.Standing? {
        var driven := Drive(ops, m, m.flows[i], status.remaining, luck[i]);
        DriveSpendsAtMostItsCap(ops, m, m.flows[i], status.remaining, luck[i]);
        SpendsBound(ops, driven.ops, m, status.remaining);
        if driven.alive {
          FlowsSpend(events, driven.ops, m, luck, stops, i + 1);
          SpendsFold(ops, driven.ops, OverFlows(events, driven.ops, m, luck, stops, i + 1), m);
        }
      }
    }
  }

  lemma SpendsBound(a: seq<Op>, b: seq<Op>, m: Mandate, x: nat)
    requires Spends(a, b, m, x)
    ensures Reserved(b, m) <= Reserved(a, m) + x
  {}

  lemma SpendsFold(a: seq<Op>, b: seq<Op>, c: seq<Op>, m: Mandate)
    requires Reserved(a, m) <= m.cap && Reserved(b, m) <= m.cap && Reserved(c, m) <= m.cap
    requires Spends(a, b, m, m.cap - Reserved(a, m)) && Spends(b, c, m, m.cap - Reserved(b, m))
    ensures Spends(a, c, m, m.cap - Reserved(a, m))
  {
    hide Under, Reserved;
    SpendsTwice(a, b, c, m, m.cap - Reserved(a, m), m.cap - Reserved(b, m));
  }

  // ---------- every step keeps it ----------

  lemma RowsLonger(events: seq<Event>, e: Event)
    requires Rows(events + [e]).Some?
    ensures Rows(events).Some? && Rows(events + [e]) == Fold(Rows(events).value, e)
  {
    assert (events + [e])[..|events|] == events;
  }

  lemma {:induction false} InLedger(events: seq<Event>, m: Mandate)
    requires Rows(events).Some?
    ensures m in Rows(events).value <==> Enabled(m) in events
    ensures Disabled(m) in events <==> m in Rows(events).value && !Rows(events).value[m]
  {
    if events != [] {
      var n := |events| - 1;
      assert events == events[..n] + [events[n]];
      InLedger(events[..n], m);
    }
  }

  lemma MandateStepKeeps(s: State, step: Step)
    requires Good(s) && (Enables(step) || step.DisableStep?)
    ensures Good(After(s, step))
  {
    hide Under, Rows, Flows, Reserved;
    var next := After(s, step);
    if next.events != s.events && Rows(next.events).Some? {
      var e := if Enables(step) then Enabled(step.m) else Disabled(step.m);
      RowsLonger(s.events, e);
    }
  }

  lemma TickingKeeps(s: State, m: Mandate, luck: seq<Luck>, stops: nat)
    requires Good(s)
    ensures Good(After(s, TickStep(m, luck, stops)))
    ensures forall other :: other != m ==>
      Reserved(After(s, TickStep(m, luck, stops)).ops, other) == Reserved(s.ops, other)
  {
    hide Rows, OverFlows, Reserved, Under, Flows;
    if Rows(s.events).Some? && m in Rows(s.events).value {
      InLedger(s.events, m);
      FlowsSpend(s.events, s.ops, m, luck, stops, 0);
    }
  }

  predicate ByOthers(step: Step) { step.OthersPlan? || step.OthersAllow? || step.OthersFail? }

  lemma OthersReserveNothing(s: State, step: Step, m: Mandate)
    requires ByOthers(step)
    ensures Reserved(After(s, step).ops, m) == Reserved(s.ops, m)
    ensures forall i :: 0 <= i < |After(s, step).ops| && Under(After(s, step).ops[i].phase, m) ==>
      i < |s.ops| && Under(s.ops[i].phase, m)
  {
    hide Reserved, At;
    AtIs(s.ops, step.plan);
    var i := At(s.ops, step.plan);
    if step.OthersPlan? {
      ReservedSnoc(s.ops, Op(step.plan, Planned), m);
    } else if After(s, step) != s {
      ReservedUpdate(s.ops, i, After(s, step).ops[i], m);
    }
  }

  lemma OthersStepKeeps(s: State, step: Step)
    requires Good(s) && ByOthers(step)
    ensures Good(After(s, step))
  {
    hide Rows, At, Reserved, Flows, Under;
    var next := After(s, step);
    forall m ensures Reserved(next.ops, m) == Reserved(s.ops, m) {
      OthersReserveNothing(s, step, m);
    }
    forall i, m | 0 <= i < |next.ops| && Under(next.ops[i].phase, m) ensures Enabled(m) in s.events {
      OthersReserveNothing(s, step, m);
    }
    assert next.events == s.events;
  }

  lemma StartIsGood()
    ensures Good(State([], []))
  {}

  lemma {:induction false} RunIsGood(steps: seq<Step>)
    ensures Good(Run(steps))
  {
    hide After, Good;
    if steps == [] {
      StartIsGood();
    } else {
      var n := |steps| - 1;
      var s := Run(steps[..n]);
      RunIsGood(steps[..n]);
      if ByOthers(steps[n]) {
        OthersStepKeeps(s, steps[n]);
      } else if steps[n].TickStep? {
        TickingKeeps(s, steps[n].m, steps[n].luck, steps[n].stops);
      } else {
        MandateStepKeeps(s, steps[n]);
      }
    }
  }

  // ---------- over every run ----------

  /** Whenever the ledger can be read, the enabled mandates cover pairwise disjoint flows. */
  lemma {:induction false} EnabledMandatesAreDisjoint(steps: seq<Step>, a: Mandate, b: Mandate)
    requires var held := Rows(Run(steps).events);
             held.Some? && a in held.value && b in held.value && held.value[a] && held.value[b] && a != b
    ensures forall i, k :: 0 <= i < |a.flows| && 0 <= k < |b.flows| ==> a.flows[i] != b.flows[k]
  {
    RunIsGood(steps);
    assert Flows(a) !! Flows(b);
    forall i, k | 0 <= i < |a.flows| && 0 <= k < |b.flows| ensures a.flows[i] != b.flows[k] {
      assert a.flows[i] in Flows(a) && b.flows[k] in Flows(b);
    }
  }

  /** A mandate's reserved calls, over all ticks, restarts and child flows, never exceed its lifetime
      cap, so the ceiling check in `status` never fires; and nothing is reserved for a mandate that
      was never enabled. No assumption about the clock is needed. */
  lemma {:induction false} CapIsNeverExceeded(steps: seq<Step>, m: Mandate)
    ensures Reserved(Run(steps).ops, m) <= m.cap
    ensures StatusOf(Run(steps).events, Run(steps).ops, m) != Exceeded
    ensures Reserved(Run(steps).ops, m) > 0 ==> Enabled(m) in Run(steps).events
  {
    hide Run, Rows;
    RunIsGood(steps);
    if Enabled(m) !in Run(steps).events {
      NoneReserved(Run(steps).ops, m);
    }
  }

  // ---------- a disabled mandate ----------

  lemma StepLeaves(s: State, step: Step, m: Mandate)
    requires Good(s) && Disabled(m) in s.events
    ensures Reserved(After(s, step).ops, m) == Reserved(s.ops, m) && Disabled(m) in After(s, step).events
  {
    hide Rows, At, Reserved, Flows, Good, Ticked;
    if ByOthers(step) {
      OthersReserveNothing(s, step, m);
    } else if step.TickStep? {
      if step.m == m {
        DisabledIsIdle(s, m, step.luck, step.stops);
      } else {
        TickingKeeps(s, step.m, step.luck, step.stops);
      }
    }
  }

  lemma DisabledIsIdle(s: State, m: Mandate, luck: seq<Luck>, stops: nat)
    requires Disabled(m) in s.events
    ensures After(s, TickStep(m, luck, stops)) == s
  {
    hide Rows, OverFlows, Reserved;
    if Rows(s.events).Some? {
      InLedger(s.events, m);
    }
  }

  /** Once a mandate was disabled its reservations never change again, whatever runs later. */
  lemma {:induction false} DisabledSpendsNothing(steps: seq<Step>, more: seq<Step>, m: Mandate)
    requires Disabled(m) in Run(steps).events
    ensures Reserved(Run(steps + more).ops, m) == Reserved(Run(steps).ops, m)
    ensures Disabled(m) in Run(steps + more).events
    decreases |more|
  {
    hide After, Good, Reserved;
    if more == [] {
      assert steps + more == steps;
    } else {
      var n := |more| - 1;
      assert (steps + more)[..|steps + more| - 1] == steps + more[..n];
      DisabledSpendsNothing(steps, more[..n], m);
      RunIsGood(steps + more[..n]);
      StepLeaves(Run(steps + more[..n]), more[n], m);
    }
  }

  // ---------- when the ledger stays readable ----------

  predicate Accepted(s: State, step: Step) { Enables(step) && After(s, step).events != s.events }

  /** An enabling is accepted for a mandate the ledger already holds, under an equal digest. */
  predicate Repeats(s: State, step: Step) { Accepted(s, step) && Enabled(step.m) in s.events }

  lemma StepReadable(s: State, step: Step)
    ensures Rows(After(s, step).events).Some? <==> Rows(s.events).Some? && !Repeats(s, step)
  {
    hide Rows, At, Flows, Ticked;
    var next := After(s, step);
    if next.events != s.events {
      var e := if Enables(step) then Enabled(step.m) else Disabled(step.m);
      assert next.events == s.events + [e];
      RowsSnoc(s.events, e);
      InLedger(s.events, step.m);
    }
  }

  ghost predicate NoneRepeats(steps: seq<Step>) {
    forall n :: 0 <= n < |steps| ==> !Repeats(Run(steps[..n]), steps[n])
  }

  lemma NoneRepeatsSnoc(steps: seq<Step>)
    requires steps != []
    ensures var n := |steps| - 1;
            NoneRepeats(steps) <==> NoneRepeats(steps[..n]) && !Repeats(Run(steps[..n]), steps[n])
  {
    hide Repeats, Run;
    var n := |steps| - 1;
    forall k | 0 <= k < n ensures steps[..n][..k] == steps[..k] && steps[..n][k] == steps[k] {}
    if NoneRepeats(steps) {
      forall k | 0 <= k < n ensures !Repeats(Run(steps[..n][..k]), steps[..n][k]) {
        assert !Repeats(Run(steps[..k]), steps[k]);
      }
    }
    if NoneRepeats(steps[..n]) && !Repeats(Run(steps[..n]), steps[n]) {
      forall k | 0 <= k < |steps| ensures !Repeats(Run(steps[..k]), steps[k]) {
        if k < n { assert !Repeats(Run(steps[..n][..k]), steps[..n][k]); }
      }
    }
  }

  /** The mandate ledger can be read after a run if and only if no enabling it accepted repeated a
      mandate the ledger already held. */
  lemma {:induction false} ReadableExactlyWhenNoneRepeats(steps: seq<Step>)
    ensures Rows(Run(steps).events).Some? <==> NoneRepeats(steps)
  {
    hide Repeats, Rows, After, NoneRepeats;
    if steps == [] {
      StartIsReadable();
    } else {
      ReadableExactlyWhenNoneRepeats(steps[..|steps| - 1]);
      StepReadable(Run(steps[..|steps| - 1]), steps[|steps| - 1]);
      NoneRepeatsSnoc(steps);
    }
  }

  lemma StartIsReadable()
    ensures Rows([]).Some? && NoneRepeats([])
  {}

  lemma {:induction false} NotYetEnabled(steps: seq<Step>, m: Mandate)
    requires forall i :: 0 <= i < |steps| && Enables(steps[i]) ==> steps[i].m != m
    ensures Enabled(m) !in Run(steps).events
  {
    hide Rows, At, Flows, Ticked;
    if steps != [] {
      NotYetEnabled(steps[..|steps| - 1], m);
    }
  }

  /** So it is enough that no two enablings name one mandate, as when no two creation times coincide;
      the clock may step back. */
  lemma DistinctMandatesStayReadable(steps: seq<Step>)
    requires forall i, j :: 0 <= i < j < |steps| && Enables(steps[i]) && Enables(steps[j]) ==> steps[i].m != steps[j].m
    ensures Rows(Run(steps).events).Some?
  {
    hide Rows, After;
    forall n | 0 <= n < |steps| ensures !Repeats(Run(steps[..n]), steps[n]) {
      if Enables(steps[n]) {
        forall i | 0 <= i < n && Enables(steps[..n][i]) ensures steps[..n][i].m != steps[n].m {
          assert steps[..n][i] == steps[i];
        }
        NotYetEnabled(steps[..n], steps[n].m);
      }
    }
    ReadableExactlyWhenNoneRepeats(steps);
  }

  /** It can fail: enabling the same terms at the same instant again, after disabling them, leaves a
      ledger nobody can read. */
  lemma RepeatedClockCorrupts(m: Mandate)
    requires m.version == 2 && |m.flows| == 1
    ensures Rows(Run([EnableStep(m, true), DisableStep(m), EnableStep(m, true)]).events).None?
  {
    var a, b, c := EnableStep(m, true), DisableStep(m), EnableStep(m, true);
    assert [a, b, c][..2] == [a, b] && [a, b][..1] == [a] && [a][..0] == [];
    RowsSnoc([], Enabled(m));
    assert [] + [Enabled(m)] == [Enabled(m)];
    assert Run([a]).events == [Enabled(m)];
    RowsSnoc([Enabled(m)], Disabled(m));
    assert [Enabled(m)] + [Disabled(m)] == [Enabled(m), Disabled(m)];
    assert Run([a, b]).events == [Enabled(m), Disabled(m)];
    RowsSnoc([Enabled(m), Disabled(m)], Enabled(m));
  }
}
