/** Every interleaving of planning, authorizing, revoking and serving copy policies, with people
    planning, authorizing and running acquisitions of their own in between. */
module CopyPolicyLaws {
  import opened Seqs
  import opened CopyPolicy

  datatype Step =
    | PlanStep(p: Policy, fit: bool, now: int)
    | AuthorizeStep(p: Policy, now: int)
    | RevokeStep(p: Policy)
    | PassStep(w: World)
    | OperatorPlans(plan: Plan)
    | OperatorAllows(plan: Plan, at: int)
    | ExecutorMoves(plan: Plan, to: Phase)

  /** The transitions the operation ledger permits an acquisition. */
  predicate Permitted(from: Phase, to: Phase) {
    match from
    case Allowed => to in {Started, Failed}
    case Started => to in {UnitCompleted, Failed}
    case UnitCompleted => to in {UnitCompleted, Completed, Failed}
    case _ => false
  }

  function After(journal: seq<Entry>, step: Step): seq<Entry> {
    match step
    case PlanStep(p, fit, now) =>
      if Plannable(p, now) && fit && Read(journal).Some? && p !in Read(journal).value.stage
      then journal + [PolicyEvent(p, Planned)] else journal
    case AuthorizeStep(p, now) =>
      if Holds(journal, p, Planned) && now < p.expires then journal + [PolicyEvent(p, Authorized)] else journal
    case RevokeStep(p) => if Holds(journal, p, Authorized) then journal + [PolicyEvent(p, Revoked)] else journal
    case PassStep(w) => if Materialized(w, journal).None? then journal else Materialized(w, journal).value.pass.journal
    case OperatorPlans(plan) => if PhaseOf(journal, plan) == Absent then journal + [OpPlanned(plan)] else journal
    case OperatorAllows(plan, at) =>
      if PhaseOf(journal, plan) == Waiting then journal + [OpAuthorized(plan, None, at)] else journal
    case ExecutorMoves(plan, to) =>
      if Permitted(PhaseOf(journal, plan), to) then journal + [OpMoved(plan, to)] else journal
  }

  function Run(steps: seq<Step>): seq<Entry> {
    if steps == [] then [] else After(Run(steps[..|steps| - 1]), steps[|steps| - 1])
  }

  // ---------- what each reservation must respect ----------

  /** A reservation made under `p` after `front`. */
  ghost predicate Lawful(front: seq<Entry>, e: Entry) {
    e.OpAuthorized? && e.under.Some? ==>
      var p := e.under.value.policy;
      && Holds(front, p, Authorized)
      && InWindow(p, e.under.value.checked)
      && e.plan.candidate !in InFlight(front)
      && e.plan.candidate !in Candidates(Reservations(front, p))
      && e.plan.requests == p.each
      && |Reservations(front, p)| < p.max
  }

  ghost predicate Safe(journal: seq<Entry>) {
    Read(journal).Some? && forall i :: 0 <= i < |journal| ==> Lawful(journal[..i], journal[i])
  }

  lemma Append(journal: seq<Entry>, e: Entry)
    requires Safe(journal) && Lawful(journal, e) && Fold(Read(journal).value, e).Some?
    ensures Safe(journal + [e]) && Read(journal + [e]) == Fold(Read(journal).value, e)
  {
    hide Lawful, Read;
    var longer := journal + [e];
    ReadSnoc(journal, e);
    forall i | 0 <= i < |longer| ensures Lawful(longer[..i], longer[i]) {
      assert longer[..i] == journal[..i];
      if i == |journal| { assert journal[..i] == journal; }
    }
  }

  lemma ReadSnoc(journal: seq<Entry>, e: Entry)
    requires Read(journal).Some?
    ensures Read(journal + [e]) == Fold(Read(journal).value, e)
  {
    assert (journal + [e])[..|journal|] == journal;
  }

  lemma PhaseSnoc(journal: seq<Entry>, e: Entry, plan: Plan)
    ensures PhaseOf(journal + [e], plan) ==
      match e
      case OpPlanned(q) => if q == plan then Waiting else PhaseOf(journal, plan)
      case OpAuthorized(q, _, _) => if q == plan then Allowed else PhaseOf(journal, plan)
      case OpMoved(q, to) => if q == plan then to else PhaseOf(journal, plan)
      case PolicyEvent(_, _) => PhaseOf(journal, plan)
  {
    assert (journal + [e])[..|journal|] == journal;
  }

  lemma InFlightSnoc(journal: seq<Entry>, e: Entry)
    requires e.OpPlanned? || e.OpAuthorized?
    ensures InFlight(journal + [e]) <= InFlight(journal) + (if e.OpAuthorized? then {e.plan.candidate} else {})
  {
    hide PhaseOf;
    var longer := journal + [e];
    forall i | 0 <= i < |longer| && longer[i].OpAuthorized? && Running(PhaseOf(longer, longer[i].plan))
      ensures longer[i].plan.candidate in InFlight(journal) + (if e.OpAuthorized? then {e.plan.candidate} else {})
    {
      PhaseSnoc(journal, e, longer[i].plan);
      if i < |journal| && longer[i].plan != e.plan {
        assert journal[i] == longer[i];
      }
    }
  }

  lemma ReservationsSnoc(journal: seq<Entry>, e: Entry, p: Policy)
    ensures Reservations(journal + [e], p) ==
      if Reserves(p, e) then Reservations(journal, p) + [e] else Reservations(journal, p)
  {
    FilterConcat(x => Reserves(p, x), journal, [e]);
    assert [e][1..] == [];
  }

  // ---------- a pass keeps it ----------

  /** What the pass carries is up to date for the policy being served. */
  ghost predicate Serving(p: Policy, held: Policies, s: Pass) {
    && Safe(s.journal) && Read(s.journal) == Some(held) && p in held.stage && held.stage[p] == Authorized
    && Candidates(Reservations(s.journal, p)) <= s.used
    && InFlight(s.journal) <= s.active
    && s.remaining == p.max - |Reservations(s.journal, p)|
  }

  lemma ReserveKeeps(w: World, p: Policy, flow: string, key: string, held: Policies, s: Pass)
    requires Serving(p, held, s) && key !in s.used && key !in s.active && s.remaining > 0 && Due(w, p, s.checks)
    ensures Serving(p, held, Reserve(w, p, flow, key, s))
  {
    hide PhaseOf, Read, Reservations, InFlight, Safe, Candidates;
    var frozen := Frozen(w, p, flow, key, s.journal);
    if frozen.Some? {
      var plan, phase := frozen.value, PhaseOf(s.journal, frozen.value);
      var authorized := Authorization(w, p, plan, s.checks);
      if phase == Absent {
        PlannedKeeps(p, held, s, plan);
        AuthorizedKeeps(p, held, s.(journal := s.journal + [OpPlanned(plan)]), key, authorized);
      } else if phase == Waiting {
        AuthorizedKeeps(p, held, s, key, authorized);
      }
    }
  }

  lemma PlannedKeeps(p: Policy, held: Policies, s: Pass, plan: Plan)
    requires Serving(p, held, s)
    ensures Serving(p, held, s.(journal := s.journal + [OpPlanned(plan)]))
  {
    hide InFlight, Reservations, Read, Candidates, Safe;
    var e := OpPlanned(plan);
    SafeReads(s.journal);
    Append(s.journal, e);
    InFlightSnoc(s.journal, e);
    ReservationsSnoc(s.journal, e, p);
  }

  lemma SafeReads(journal: seq<Entry>)
    requires Safe(journal)
    ensures Read(journal).Some?
  {}

  lemma AuthorizedKeeps(p: Policy, held: Policies, s: Pass, key: string, e: Entry)
    requires Serving(p, held, s) && key !in s.used && key !in s.active && s.remaining > 0
    requires Reserves(p, e) && e.plan.candidate == key && e.plan.requests == p.each
        && InWindow(p, e.under.value.checked)
    ensures Serving(p, held, s.(journal := s.journal + [e], used := s.used + {key}, active := s.active + {key},
                                remaining := s.remaining - 1))
  {
    hide InFlight, Reservations, Read, Safe, Candidates;
    SafeReads(s.journal);
    Append(s.journal, e);
    InFlightSnoc(s.journal, e);
    ReservationsSnoc(s.journal, e, p);
    CandidatesSnoc(Reservations(s.journal, p), e);
  }

  lemma CandidatesSnoc(reserved: seq<Entry>, e: Entry)
    requires e.OpAuthorized?
    ensures Candidates(reserved + [e]) == Candidates(reserved) + {e.plan.candidate}
  {
    var longer := reserved + [e];
    forall c | c in Candidates(reserved) + {e.plan.candidate} ensures c in Candidates(longer) {
      if c in Candidates(reserved) {
        var i :| 0 <= i < |reserved| && reserved[i].OpAuthorized? && reserved[i].plan.candidate == c;
        assert longer[i] == reserved[i];
      } else {
        assert longer[|reserved|] == e;
      }
    }
  }

  /** Only `remaining` and `used` belong to one policy; the rest survives into the next. */
  ghost predicate Between(held: Policies, s: Pass) {
    Safe(s.journal) && Read(s.journal) == Some(held) && InFlight(s.journal) <= s.active
  }

  lemma {:induction false} KeysKeep(w: World, p: Policy, flow: string, keys: seq<string>, i: nat, held: Policies,
                                    s: Pass)
    requires i <= |keys| && Serving(p, held, s)
    ensures Serving(p, held, OverKeys(w, p, flow, keys, i, s))
    decreases |keys| - i
  {
    hide Safe, Read, InFlight, Reservations, Candidates, Reserve;
    if i < |keys| && s.remaining > 0 {
      if keys[i] in s.used || keys[i] in s.active {
        KeysKeep(w, p, flow, keys, i + 1, held, s);
      } else if Due(w, p, s.checks) {
        ReserveKeeps(w, p, flow, keys[i], held, s);
        KeysKeep(w, p, flow, keys, i + 1, held, Reserve(w, p, flow, keys[i], s));
      }
    }
  }

  lemma {:induction false} FlowsKeep(w: World, p: Policy, i: nat, held: Policies, s: Pass)
    requires i <= |p.flows| && Serving(p, held, s)
    ensures Serving(p, held, OverFlows(w, p, i, s))
    decreases |p.flows| - i
  {
    hide Serving;
    if i < |p.flows| {
      var flow := p.flows[i];
      if (w.only.Some? && w.only.value != flow) || !w.flowOk(flow) {
        FlowsKeep(w, p, i + 1, held, s);
      } else {
        KeysKeep(w, p, flow, w.eligible(p, flow), 0, held, s);
        FlowsKeep(w, p, i + 1, held, OverKeys(w, p, flow, w.eligible(p, flow), 0, s));
      }
    }
  }

  lemma {:induction false} ReservationsCounted(journal: seq<Entry>, p: Policy, n: nat)
    requires n <= |journal| && forall i :: 0 <= i < |journal| ==> Lawful(journal[..i], journal[i])
    ensures |Reservations(journal[..n], p)| <= p.max
    ensures Requests(Reservations(journal[..n], p)) == |Reservations(journal[..n], p)| * p.each
  {
    if n == 0 {
      assert journal[..0] == [];
    } else {
      hide InFlight, Read, Candidates;
      ReservationsCounted(journal, p, n - 1);
      var front, e := journal[..n - 1], journal[n - 1];
      assert journal[..n] == front + [e] && Lawful(front, e);
      hide Reservations, Lawful;
      ReservationsSnoc(front, e, p);
      if Reserves(p, e) {
        RequestsSnoc(Reservations(front, p), e, p.each);
      }
    }
  }

  lemma RequestsSnoc(reserved: seq<Entry>, e: Entry, each: nat)
    requires e.OpAuthorized? && e.plan.requests == each && Requests(reserved) == |reserved| * each
    ensures Requests(reserved + [e]) == |reserved + [e]| * each
  {
    assert (reserved + [e])[..|reserved|] == reserved;
  }

  lemma SafeUnderCeiling(journal: seq<Entry>, p: Policy)
    requires Safe(journal)
    ensures !OverCeiling(journal, p) && |Reservations(journal, p)| <= p.max
    ensures Requests(Reservations(journal, p)) <= p.max * p.each
  {
    hide Lawful, Read, Reservations;
    ReservationsCounted(journal, p, |journal|);
    assert journal[..|journal|] == journal;
    ProductLeq(|Reservations(journal, p)|, p.max, p.each);
  }

  lemma ProductLeq(a: nat, b: nat, c: nat)
    requires a <= b
    ensures a * c <= b * c
  {}

  lemma PolicyKeeps(w: World, held: Policies, p: Policy, s: Pass)
    requires Between(held, s) && p in held.stage
    ensures var round := OnePolicy(w, p, held.stage[p], s); !round.exceeded && Between(held, round.pass)
  {
    hide Safe, Read, InFlight, Reservations, Candidates, OverFlows;
    if held.stage[p] == Authorized && Due(w, p, s.checks) {
      SafeUnderCeiling(s.journal, p);
      var reserved := Reservations(s.journal, p);
      var start := s.(checks := s.checks + 1, used := Candidates(reserved), remaining := p.max - |reserved|);
      FlowsKeep(w, p, 0, held, start);
    }
  }

  lemma {:induction false} PoliciesKeep(w: World, held: Policies, i: nat, s: Pass)
    requires i <= |held.order| && forall k :: 0 <= k < |held.order| ==> held.order[k] in held.stage
    requires Between(held, s)
    ensures var round := OverPolicies(w, held, i, s); !round.exceeded && Between(held, round.pass)
    decreases |held.order| - i
  {
    hide Between, OnePolicy;
    if i < |held.order| {
      PolicyKeeps(w, held, held.order[i], s);
      PoliciesKeep(w, held, i + 1, OnePolicy(w, held.order[i], held.stage[held.order[i]], s).pass);
    }
  }

  lemma PassKeeps(w: World, journal: seq<Entry>)
    requires Safe(journal)
    ensures Materialized(w, journal).Some? && !Materialized(w, journal).value.exceeded
    ensures Safe(Materialized(w, journal).value.pass.journal)
  {
    hide Safe, Read, InFlight, OverPolicies;
    SafeReads(journal);
    OrderIsHeld(journal);
    PoliciesKeep(w, Read(journal).value, 0, StartPass(journal));
  }

  lemma {:induction false} RunIsSafe(steps: seq<Step>)
    ensures Safe(Run(steps))
  {
    hide Lawful, Materialized;
    if steps != [] {
      var n := |steps| - 1;
      RunIsSafe(steps[..n]);
      StepKeeps(Run(steps[..n]), steps[n]);
    }
  }

  lemma StepKeeps(journal: seq<Entry>, step: Step)
    requires Safe(journal)
    ensures Safe(After(journal, step))
  {
    hide Safe, Read, Materialized, PhaseOf, InFlight, Candidates, Reservations;
    SafeReads(journal);
    match step
    case PlanStep(p, fit, now) =>
      if After(journal, step) != journal { Append(journal, PolicyEvent(p, Planned)); }
    case AuthorizeStep(p, now) =>
      if After(journal, step) != journal { Append(journal, PolicyEvent(p, Authorized)); }
    case RevokeStep(p) =>
      if After(journal, step) != journal { Append(journal, PolicyEvent(p, Revoked)); }
    case PassStep(w) => PassKeeps(w, journal);
    case OperatorPlans(plan) => Append(journal, OpPlanned(plan));
    case OperatorAllows(plan, at) => Append(journal, OpAuthorized(plan, None, at));
    case ExecutorMoves(plan, to) => Append(journal, OpMoved(plan, to));
  }

  // ---------- over every run ----------

  /** A policy never reserves more candidates, nor they more requests, than its lifetime ceilings;
      so no ceiling check ever fires and no ledger is ever unreadable. */
  lemma CeilingsHold(steps: seq<Step>, p: Policy)
    ensures var journal := Run(steps);
            |Reservations(journal, p)| <= p.max && Requests(Reservations(journal, p)) <= p.max * p.each
    ensures StatusOf(Run(steps), p) !in {Exceeded, Corrupt}
  {
    hide Reservations, Read, Lawful;
    RunIsSafe(steps);
    SafeUnderCeiling(Run(steps), p);
  }

  /** Every reservation was made under a policy then authorized and not revoked, after a check that read
      the clock inside its window, for exactly its requests, and while no acquisition of the candidate
      was in flight. */
  lemma EveryReservationWasAllowed(steps: seq<Step>, p: Policy, i: nat)
    requires i < |Run(steps)| && Reserves(p, Run(steps)[i])
    ensures var front, e := Run(steps)[..i], Run(steps)[i];
            && Holds(front, p, Authorized) && InWindow(p, e.under.value.checked) && e.plan.requests == p.each
            && e.plan.candidate !in InFlight(front)
  {
    hide InFlight, Read;
    RunIsSafe(steps);
    assert Lawful(Run(steps)[..i], Run(steps)[i]);
  }

  lemma {:induction false} InReservations(journal: seq<Entry>, p: Policy, i: nat)
    requires i < |journal| && Reserves(p, journal[i])
    ensures journal[i].plan.candidate in Candidates(Reservations(journal, p))
    decreases |journal|
  {
    var n := |journal| - 1;
    assert journal == journal[..n] + [journal[n]];
    ReservationsSnoc(journal[..n], journal[n], p);
    var before := Reservations(journal[..n], p);
    if i == n {
      CandidatesSnoc(before, journal[n]);
    } else {
      InReservations(journal[..n], p, i);
      if Reserves(p, journal[n]) { CandidatesSnoc(before, journal[n]); }
    }
  }

  /** No policy reserves a candidate twice. */
  lemma NoCandidateTwice(steps: seq<Step>, p: Policy, i: nat, j: nat)
    requires i < j < |Run(steps)| && Reserves(p, Run(steps)[i]) && Reserves(p, Run(steps)[j])
    ensures Run(steps)[i].plan.candidate != Run(steps)[j].plan.candidate
  {
    hide Candidates, Reservations, InFlight, Read;
    RunIsSafe(steps);
    var journal := Run(steps);
    assert Lawful(journal[..j], journal[j]);
    assert journal[..j][i] == journal[i];
    InReservations(journal[..j], p, i);
  }

  lemma {:induction false} RevokedStays(journal: seq<Entry>, p: Policy, k: nat, n: nat)
    requires k < n <= |journal| && journal[k] == PolicyEvent(p, Revoked) && Read(journal[..n]).Some?
    ensures Holds(journal[..n], p, Revoked)
    decreases n
  {
    assert journal[..n][..n - 1] == journal[..n - 1];
    if n > k + 1 {
      RevokedStays(journal, p, k, n - 1);
    }
  }

  lemma {:induction false} ReadsSoFar(journal: seq<Entry>, n: nat)
    requires n <= |journal| && Read(journal).Some?
    ensures Read(journal[..n]).Some?
    decreases |journal| - n
  {
    if n < |journal| {
      ReadsSoFar(journal, n + 1);
      assert journal[..n + 1][..n] == journal[..n];
    } else {
      assert journal[..n] == journal;
    }
  }

  /** A revoked policy never reserves again. */
  lemma NothingAfterRevocation(steps: seq<Step>, p: Policy, k: nat, i: nat)
    requires k < i < |Run(steps)| && Run(steps)[k] == PolicyEvent(p, Revoked)
    ensures !Reserves(p, Run(steps)[i])
  {
    hide Candidates, Reservations, InFlight, Read;
    RunIsSafe(steps);
    var journal := Run(steps);
    ReadsSoFar(journal, i);
    RevokedStays(journal, p, k, i);
    assert Lawful(journal[..i], journal[i]);
  }

  // ---------- the recorded time ----------

  /** Between one reading of the clock and the next at most `d` passes, and it does not go back. */
  ghost predicate Paced(w: World, d: int) { forall k: nat :: w.clock(k) <= w.clock(k + 1) <= w.clock(k) + d }

  /** Every authorization under a policy is dated within `d` of the check it rests on. */
  ghost predicate Timed(journal: seq<Entry>, d: int) {
    forall i :: 0 <= i < |journal| && journal[i].OpAuthorized? && journal[i].under.Some? ==>
      journal[i].under.value.checked <= journal[i].at <= journal[i].under.value.checked + d
  }

  lemma {:induction false} KeysTimed(d: int, w: World, p: Policy, flow: string, keys: seq<string>, i: nat, s: Pass)
    requires i <= |keys| && Paced(w, d) && Timed(s.journal, d)
    ensures Timed(OverKeys(w, p, flow, keys, i, s).journal, d)
    decreases |keys| - i
  {
    hide Frozen, PhaseOf;
    if i < |keys| && s.remaining > 0 {
      if keys[i] in s.used || keys[i] in s.active {
        KeysTimed(d, w, p, flow, keys, i + 1, s);
      } else if Due(w, p, s.checks) {
        assert w.clock(s.checks) <= w.clock(s.checks + 1) <= w.clock(s.checks) + d;
        KeysTimed(d, w, p, flow, keys, i + 1, Reserve(w, p, flow, keys[i], s));
      }
    }
  }

  lemma {:induction false} FlowsTimed(d: int, w: World, p: Policy, i: nat, s: Pass)
    requires i <= |p.flows| && Paced(w, d) && Timed(s.journal, d)
    ensures Timed(OverFlows(w, p, i, s).journal, d)
    decreases |p.flows| - i
  {
    hide Timed, Paced;
    if i < |p.flows| {
      var flow := p.flows[i];
      if (w.only.Some? && w.only.value != flow) || !w.flowOk(flow) {
        FlowsTimed(d, w, p, i + 1, s);
      } else {
        KeysTimed(d, w, p, flow, w.eligible(p, flow), 0, s);
        FlowsTimed(d, w, p, i + 1, OverKeys(w, p, flow, w.eligible(p, flow), 0, s));
      }
    }
  }

  lemma PolicyTimed(d: int, w: World, p: Policy, stage: Stage, s: Pass)
    requires Paced(w, d) && Timed(s.journal, d)
    ensures Timed(OnePolicy(w, p, stage, s).pass.journal, d)
  {
    hide Timed, Paced, Reservations, Candidates, OverFlows;
    var reserved := Reservations(s.journal, p);
    FlowsTimed(d, w, p, 0, s.(checks := s.checks + 1, used := Candidates(reserved), remaining := p.max - |reserved|));
  }

  lemma {:induction false} PoliciesTimed(d: int, w: World, held: Policies, i: nat, s: Pass)
    requires i <= |held.order| && forall k :: 0 <= k < |held.order| ==> held.order[k] in held.stage
    requires Paced(w, d) && Timed(s.journal, d)
    ensures Timed(OverPolicies(w, held, i, s).pass.journal, d)
    decreases |held.order| - i
  {
    hide Timed, Paced, OnePolicy;
    if i < |held.order| {
      var round := OnePolicy(w, held.order[i], held.stage[held.order[i]], s);
      PolicyTimed(d, w, held.order[i], held.stage[held.order[i]], s);
      if !round.exceeded { PoliciesTimed(d, w, held, i + 1, round.pass); }
    }
  }

  lemma PassTimed(d: int, w: World, journal: seq<Entry>)
    requires Paced(w, d) && Timed(journal, d)
    ensures Timed(After(journal, PassStep(w)), d)
  {
    hide Timed, Paced, OverPolicies, InFlight, Read;
    OrderIsHeld(journal);
    if Read(journal).Some? { PoliciesTimed(d, w, Read(journal).value, 0, StartPass(journal)); }
  }

  lemma {:induction false} RunTimed(d: int, steps: seq<Step>)
    requires forall i :: 0 <= i < |steps| && steps[i].PassStep? ==> Paced(steps[i].w, d)
    ensures Timed(Run(steps), d)
  {
    hide Paced, Materialized, Read, PhaseOf;
    if steps != [] {
      var n := |steps| - 1;
      RunTimed(d, steps[..n]);
      if steps[n].PassStep? { PassTimed(d, steps[n].w, Run(steps[..n])); }
    }
  }

  /** Every reservation of `p` whose check read `t` is dated inside the window, on all clocks whose
      consecutive readings lie within `d`. */
  ghost predicate AlwaysInside(p: Policy, t: int, d: int) {
    forall steps: seq<Step>, i: nat ::
      (forall k :: 0 <= k < |steps| && steps[k].PassStep? ==> Paced(steps[k].w, d))
      && i < |Run(steps)| && Reserves(p, Run(steps)[i]) && Run(steps)[i].under.value.checked == t
      ==> InWindow(p, Run(steps)[i].at)
  }

  /** The check bounds the recorded time only together with the clock: a policy that can be planned,
      checked at `t`, is always recorded inside its window if and only if `d` more cannot end it. */
  lemma RecordedInsideExactlyWhen(p: Policy, now: int, t: int, d: nat)
    requires Plannable(p, now) && p.flows != [] && InWindow(p, t)
    ensures AlwaysInside(p, t, d) <==> t + d < p.expires
  {
    if t + d < p.expires {
      forall steps: seq<Step>, i: nat
        | && (forall k :: 0 <= k < |steps| && steps[k].PassStep? ==> Paced(steps[k].w, d))
          && i < |Run(steps)| && Reserves(p, Run(steps)[i]) && Run(steps)[i].under.value.checked == t
        ensures InWindow(p, Run(steps)[i].at)
      {
        hide Run, Paced, Plannable;
        RunTimed(d, steps);
      }
    } else {
      hide Run, InWindow, Plannable;
      var steps := StraddlingSteps(p, now, t, d);
      StraddlingRun(p, now, t, d);
      assert Reserves(p, Run(steps)[3]);
      assert Paced(steps[2].w, d);
      assert InWindow(p, Run(steps)[3].at) <==> InWindow(p, t + d);
      AfterTheWindow(p, t + d);
    }
  }

  lemma AfterTheWindow(p: Policy, at: int)
    requires p.expires <= at
    ensures !InWindow(p, at)
  {}

  // ---------- a reservation dated after the window ----------

  /** Two readings at `t`, all later ones at `t + d`. */
  function Straddler(t: int, d: nat): World {
    World(None, (k: nat) => if k <= 1 then t else t + d, _ => true, _ => true, _ => true, (_, _) => ["c"],
          (_, _, _) => Some("r"))
  }

  function StraddlingSteps(p: Policy, now: int, t: int, d: nat): seq<Step> {
    [PlanStep(p, true, now), AuthorizeStep(p, now), PassStep(Straddler(t, d))]
  }

  lemma {:induction false} UsedIsSkipped(w: World, p: Policy, i: nat, s: Pass)
    requires i <= |p.flows| && "c" in s.used && forall q, flow :: w.eligible(q, flow) == ["c"]
    ensures OverFlows(w, p, i, s) == s
    decreases |p.flows| - i
  {
    if i < |p.flows| {
      var flow := p.flows[i];
      assert OverKeys(w, p, flow, ["c"], 1, s) == s;
      assert OverKeys(w, p, flow, ["c"], 0, s) == s;
      UsedIsSkipped(w, p, i + 1, s);
    }
  }

  lemma OneRead(p: Policy)
    ensures Read([PolicyEvent(p, Planned)]) == Some(Policies([p], map[p := Planned]))
  {
    ReadSnoc([], PolicyEvent(p, Planned));
    assert [] + [PolicyEvent(p, Planned)] == [PolicyEvent(p, Planned)] && [] + [p] == [p];
    assert map[][p := Planned] == map[p := Planned];
  }

  lemma TwoRead(p: Policy)
    ensures Read([PolicyEvent(p, Planned), PolicyEvent(p, Authorized)]) == Some(Policies([p], map[p := Authorized]))
  {
    OneRead(p);
    var one, e := [PolicyEvent(p, Planned)], PolicyEvent(p, Authorized);
    hide Read;
    ReadSnoc(one, e);
    assert one + [e] == [PolicyEvent(p, Planned), e];
    assert map[p := Planned][p := Authorized] == map[p := Authorized];
  }

  lemma AuthorizedPolicy(p: Policy, now: int, steps: seq<Step>)
    requires Plannable(p, now) && |steps| >= 2
    requires steps[0] == PlanStep(p, true, now) && steps[1] == AuthorizeStep(p, now)
    ensures var two := [PolicyEvent(p, Planned), PolicyEvent(p, Authorized)];
      Run(steps[..2]) == two && Read(two) == Some(Policies([p], map[p := Authorized]))
  {
    var a, b := steps[0], steps[1];
    var one, two := [PolicyEvent(p, Planned)], [PolicyEvent(p, Planned), PolicyEvent(p, Authorized)];
    assert steps[..2] == [a, b] && [a, b][..1] == [a] && [a][..0] == [];
    assert Read([]) == Some(Policies([], map[]));
    OneRead(p);
    TwoRead(p);
    hide Read;
    assert Run([a]) == [] + [one[0]] == one;
    assert Run([a, b]) == one + [two[1]] == two;
  }

  /** The run exists for every policy, window and delay: one reservation, checked at `t` and dated
      `t + d`. */
  lemma StraddlingRun(p: Policy, now: int, t: int, d: nat)
    requires Plannable(p, now) && p.flows != [] && InWindow(p, t)
    ensures var plan := Plan("c", p.each, "r");
      Run(StraddlingSteps(p, now, t, d)) ==
        [PolicyEvent(p, Planned), PolicyEvent(p, Authorized), OpPlanned(plan),
         OpAuthorized(plan, Some(Grant(p, t)), t + d)]
  {
    hide Materialized, Read;
    var steps := StraddlingSteps(p, now, t, d);
    var two := [PolicyEvent(p, Planned), PolicyEvent(p, Authorized)];
    AuthorizedPolicy(p, now, steps);
    OnlyReservation(p, t, d, two);
    assert Run(steps) == After(two, steps[2]);
  }

  lemma OnlyReservation(p: Policy, t: int, d: nat, two: seq<Entry>)
    requires 1 <= p.max && p.flows != [] && InWindow(p, t)
    requires two == [PolicyEvent(p, Planned), PolicyEvent(p, Authorized)]
    requires Read(two) == Some(Policies([p], map[p := Authorized]))
    ensures var plan := Plan("c", p.each, "r");
            Materialized(Straddler(t, d), two).Some? && Materialized(Straddler(t, d), two).value.pass.journal
            == two + [OpPlanned(plan)] + [OpAuthorized(plan, Some(Grant(p, t)), t + d)]
  {
    hide Read, InFlight, OverFlows;
    var w := Straddler(t, d);
    NothingReserved(p, two);
    var start := Pass(two, 1, [], {}, {}, p.max);
    var end := Reserve(w, p, p.flows[0], "c", start);
    FirstFlow(w, p, t, d, start);
    assert OnePolicy(w, p, Authorized, StartPass(two)) == Round(end, false);
    var held := Policies([p], map[p := Authorized]);
    hide OnePolicy;
    assert OverPolicies(w, held, 1, end) == Round(end, false);
    assert OverPolicies(w, held, 0, StartPass(two)) == Round(end, false);
  }

  lemma NothingReserved(p: Policy, two: seq<Entry>)
    requires two == [PolicyEvent(p, Planned), PolicyEvent(p, Authorized)]
    ensures Reservations(two, p) == [] && Candidates([]) == {} && InFlight(two) == {}
    ensures PhaseOf(two, Plan("c", p.each, "r")) == Absent
  {
    assert two == [] + [two[0]] + [two[1]];
    PhaseSnoc([], two[0], Plan("c", p.each, "r"));
    PhaseSnoc([] + [two[0]], two[1], Plan("c", p.each, "r"));
    ReservationsSnoc([], two[0], p);
    ReservationsSnoc([] + [two[0]], two[1], p);
  }

  lemma FirstFlow(w: World, p: Policy, t: int, d: nat, start: Pass)
    requires w == Straddler(t, d) && p.flows != [] && InWindow(p, t) && 1 <= p.max
    requires start == Pass(start.journal, 1, [], {}, {}, p.max)
    requires PhaseOf(start.journal, Plan("c", p.each, "r")) == Absent
    ensures var plan := Plan("c", p.each, "r");
      var end := Reserve(w, p, p.flows[0], "c", start);
      && end.journal == start.journal + [OpPlanned(plan)] + [OpAuthorized(plan, Some(Grant(p, t)), t + d)]
      && OverFlows(w, p, 0, start) == end
  {
    hide InFlight, Read;
    var flow := p.flows[0];
    var end := Reserve(w, p, flow, "c", start);
    assert Due(w, p, 1);
    assert OverKeys(w, p, flow, ["c"], 0, start) == OverKeys(w, p, flow, ["c"], 1, end) == end;
    UsedIsSkipped(w, p, 1, end);
  }

  const SHORT := Policy(1, 1, 0, 10, "s", ["f"], "")

  /** A concrete pass: checked one second before its window closes, a reservation is dated after it. */
  lemma StraddlingReservation()
    ensures var journal := Run(StraddlingSteps(SHORT, 1, 9, 1));
            |journal| == 4 && Reserves(SHORT, journal[3]) && journal[3].under.value.checked == 9 && journal[3].at == 10
            && !InWindow(SHORT, journal[3].at)
  {
    StraddlingRun(SHORT, 1, 9, 1);
  }

  // ---------- a pass serves what it may ----------

  predicate Settled(phase: Phase) { phase !in {Absent, Waiting} }

  lemma ReserveSettles(w: World, p: Policy, flow: string, key: string, s: Pass, plan: Plan)
    ensures Settled(PhaseOf(s.journal, plan)) ==> Settled(PhaseOf(Reserve(w, p, flow, key, s).journal, plan))
    ensures s.used <= Reserve(w, p, flow, key, s).used && s.active <= Reserve(w, p, flow, key, s).active
  {
    var frozen := Frozen(w, p, flow, key, s.journal);
    if frozen.Some? {
      hide PhaseOf;
      PhaseSnoc(s.journal, OpPlanned(frozen.value), plan);
      var authorized := Authorization(w, p, frozen.value, s.checks);
      PhaseSnoc(s.journal, authorized, plan);
      PhaseSnoc(s.journal + [OpPlanned(frozen.value)], authorized, plan);
    }
  }

  /** The candidate is taken, or the planner refuses it, or its plan is past awaiting authorization. */
  predicate Served(w: World, p: Policy, flow: string, key: string, s: Pass) {
    key in s.used || key in s.active || w.planner(p, flow, key).None?
    || Settled(PhaseOf(s.journal, Plan(key, p.each, w.planner(p, flow, key).value)))
  }

  lemma {:induction false} ServedStays(w: World, p: Policy, flow: string, keys: seq<string>, i: nat, s: Pass,
                                       key: string)
    requires i <= |keys| && Served(w, p, flow, key, s)
    ensures Served(w, p, flow, key, OverKeys(w, p, flow, keys, i, s))
    decreases |keys| - i
  {
    hide PhaseOf, Reserve;
    if i < |keys| && s.remaining > 0 {
      if keys[i] in s.used || keys[i] in s.active {
        ServedStays(w, p, flow, keys, i + 1, s, key);
      } else if Due(w, p, s.checks) {
        if w.planner(p, flow, key).Some? {
          ReserveSettles(w, p, flow, keys[i], s, Plan(key, p.each, w.planner(p, flow, key).value));
        } else {
          ReserveSettles(w, p, flow, keys[i], s, Plan(key, p.each, ""));
        }
        ServedStays(w, p, flow, keys, i + 1, Reserve(w, p, flow, keys[i], s), key);
      }
    }
  }

  lemma ReserveServes(w: World, p: Policy, flow: string, key: string, s: Pass)
    ensures Served(w, p, flow, key, Reserve(w, p, flow, key, s))
  {
    hide PhaseOf;
  }

  /** While the policy stays due, a flow's pass ends with the ceiling spent or every eligible
      candidate served. */
  lemma {:induction false} EveryEligibleIsServed(w: World, p: Policy, flow: string, keys: seq<string>, i: nat,
                                                 s: Pass, k: nat)
    requires i <= k < |keys| && forall n :: Due(w, p, n)
    ensures var end := OverKeys(w, p, flow, keys, i, s); end.remaining <= 0 || Served(w, p, flow, keys[k], end)
    decreases |keys| - i
  {
    hide Reserve;
    if s.remaining > 0 {
      var taken := keys[i] in s.used || keys[i] in s.active;
      var next := if taken then s else Reserve(w, p, flow, keys[i], s);
      if i == k {
        ReserveServes(w, p, flow, keys[k], s);
        ServedStays(w, p, flow, keys, i + 1, next, keys[k]);
      } else {
        EveryEligibleIsServed(w, p, flow, keys, i + 1, next, k);
      }
    }
  }
}
