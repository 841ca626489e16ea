/** What one pass appends, and why, in terms of the journal it starts from and the world it reads. */
module CopyPolicyPasses {
  import opened Seqs
  import opened CopyPolicy
  import opened CopyPolicyLaws

  // ---------- nothing unwarranted ----------

  /** One of the policy's flows, still runnable and the one asked for, lists the candidate, and the planner
      froze this plan for it. */
  ghost predicate Listed(w: World, p: Policy, plan: Plan) {
    exists i :: 0 <= i < |p.flows| && w.flowOk(p.flows[i]) && w.only in {None, Some(p.flows[i])}
      && plan.candidate in w.eligible(p, p.flows[i])
      && w.planner(p, p.flows[i], plan.candidate) == Some(plan.rest) && plan.requests == p.each
  }

  /** The clock stood inside the window at the check and was read once more for the date. */
  ghost predicate Dated(w: World, p: Policy, checked: int, at: int) {
    p.notBefore <= checked < p.expires && exists k: nat :: w.clock(k) == checked && w.clock(k + 1) == at
  }

  /** An authorization this pass may append after `front`. */
  ghost predicate Warranted(w: World, front: seq<Entry>, e: Entry) {
    e.OpAuthorized? && e.under.Some? &&
    var p := e.under.value.policy;
    && Holds(front, p, Authorized) && w.scheduled(p.schedule) && w.current(p)
    && Dated(w, p, e.under.value.checked, e.at) && Listed(w, p, e.plan)
    && front != [] && PhaseOf(front, e.plan) == Waiting
  }

  /** The i-th entry is a warranted authorization, or a new plan authorized by the next entry. */
  ghost predicate Entered(w: World, journal: seq<Entry>, i: nat)
    requires i < |journal|
  {
    if journal[i].OpPlanned? then
      i + 1 < |journal| && journal[i + 1].OpAuthorized? && journal[i + 1].plan == journal[i].plan
      && PhaseOf(journal[..i], journal[i].plan) == Absent
    else Warranted(w, journal[..i], journal[i])
  }

  ghost predicate Appends(w: World, base: seq<Entry>, journal: seq<Entry>) {
    base <= journal && forall i :: |base| <= i < |journal| ==> Entered(w, journal, i)
  }

  /** The plans authorized in these entries, in order. */
  function Allowances(entries: seq<Entry>): seq<Plan> {
    if entries == [] then []
    else
      var front, last := Allowances(entries[..|entries| - 1]), entries[|entries| - 1];
      if last.OpAuthorized? then front + [last.plan] else front
  }

  ghost predicate Made(w: World, base: seq<Entry>, s: Pass) {
    Appends(w, base, s.journal) && s.made == Allowances(s.journal[|base|..])
    && s.active == InFlight(base) + Candidates(s.journal[|base|..])
  }

  lemma StaysEntered(w: World, journal: seq<Entry>, more: seq<Entry>, i: nat)
    requires i < |journal| && journal <= more && Entered(w, journal, i)
    ensures Entered(w, more, i)
  {
    assert more[..i] == journal[..i] && more[i] == journal[i];
    assert i + 1 < |journal| ==> more[i + 1] == journal[i + 1];
    hide Warranted, PhaseOf;
  }

  lemma AppendsOne(w: World, base: seq<Entry>, journal: seq<Entry>, e: Entry)
    requires Appends(w, base, journal) && Warranted(w, journal, e)
    ensures Appends(w, base, journal + [e])
  {
    var more := journal + [e];
    WarrantedIsAuthorization(w, journal, e);
    forall i | |base| <= i < |more| ensures Entered(w, more, i) {
      if i < |journal| {
        StaysEntered(w, journal, more, i);
      } else {
        assert more[..i] == journal && more[i] == e;
        hide Warranted, PhaseOf;
      }
    }
  }

  lemma WarrantedIsAuthorization(w: World, front: seq<Entry>, e: Entry)
    requires Warranted(w, front, e)
    ensures e.OpAuthorized?
  {}

  lemma AppendsTwo(w: World, base: seq<Entry>, journal: seq<Entry>, plan: Plan, e: Entry)
    requires Appends(w, base, journal) && PhaseOf(journal, plan) == Absent
    requires Warranted(w, journal + [OpPlanned(plan)], e) && e.OpAuthorized? && e.plan == plan
    ensures Appends(w, base, journal + [OpPlanned(plan)] + [e])
  {
    var planned := journal + [OpPlanned(plan)];
    var more, n := planned + [e], |journal|;
    forall i | |base| <= i < |more| ensures Entered(w, more, i) {
      if i < n {
        StaysEntered(w, journal, more, i);
      } else if i == n {
        assert more[..i] == journal && more[i] == OpPlanned(plan) && more[i + 1] == e;
        hide Warranted, PhaseOf;
      } else {
        assert more[..i] == planned && more[i] == e;
        hide Warranted, PhaseOf;
      }
    }
  }

  lemma AllowancesSnoc(entries: seq<Entry>, e: Entry)
    ensures Allowances(entries + [e]) == if e.OpAuthorized? then Allowances(entries) + [e.plan] else Allowances(entries)
    ensures Candidates(entries + [e]) == Candidates(entries) + if e.OpAuthorized? then {e.plan.candidate} else {}
  {
    assert (entries + [e])[..|entries|] == entries;
    if e.OpAuthorized? {
      CandidatesSnoc(entries, e);
    } else {
      forall i | 0 <= i < |entries| ensures (entries + [e])[i] == entries[i] {}
      assert Candidates(entries + [e]) <= Candidates(entries);
      assert Candidates(entries) <= Candidates(entries + [e]) by {
        forall c | c in Candidates(entries) ensures c in Candidates(entries + [e]) {
          var i :| 0 <= i < |entries| && entries[i].OpAuthorized? && entries[i].plan.candidate == c;
          assert (entries + [e])[i] == entries[i];
        }
      }
    }
  }

  /** What holds of the policy being served. */
  ghost predicate Standing(w: World, p: Policy, held: Policies, s: Pass) {
    Read(s.journal) == Some(held) && p in held.stage && held.stage[p] == Authorized
    && w.scheduled(p.schedule) && w.current(p)
  }

  ghost predicate Asked(w: World, p: Policy, i: nat) {
    i < |p.flows| && w.flowOk(p.flows[i]) && w.only in {None, Some(p.flows[i])}
  }

  lemma ReserveMakes(w: World, p: Policy, i: nat, key: string, held: Policies, base: seq<Entry>, s: Pass)
    requires Standing(w, p, held, s) && Made(w, base, s) && Asked(w, p, i) && key in w.eligible(p, p.flows[i])
    requires InWindow(p, w.clock(s.checks))
    ensures var s' := Reserve(w, p, p.flows[i], key, s); Standing(w, p, held, s') && Made(w, base, s')
  {
    hide PhaseOf, Read, InFlight, Candidates, Appends, Allowances;
    var frozen := Frozen(w, p, p.flows[i], key, s.journal);
    if frozen.Some? {
      var plan, phase := frozen.value, PhaseOf(s.journal, frozen.value);
      var e, n := Authorization(w, p, plan, s.checks), |base|;
      assert Dated(w, p, w.clock(s.checks), w.clock(s.checks + 1));
      assert Listed(w, p, plan);
      AppendsExtends(w, base, s.journal);
      if phase == Absent {
        var planned := s.journal + [OpPlanned(plan)];
        ReadSnoc(s.journal, OpPlanned(plan));
        ReadSnoc(planned, e);
        PhaseSnoc(s.journal, OpPlanned(plan), plan);
        AppendsTwo(w, base, s.journal, plan, e);
        assert (planned + [e])[n..] == s.journal[n..] + [OpPlanned(plan)] + [e];
        AllowancesSnoc(s.journal[n..], OpPlanned(plan));
        AllowancesSnoc(s.journal[n..] + [OpPlanned(plan)], e);
      } else if phase == Waiting {
        ReadSnoc(s.journal, e);
        WaitingMeansSome(s.journal, plan);
        AppendsOne(w, base, s.journal, e);
        assert (s.journal + [e])[n..] == s.journal[n..] + [e];
        AllowancesSnoc(s.journal[n..], e);
      }
    }
  }

  lemma AppendsExtends(w: World, base: seq<Entry>, journal: seq<Entry>)
    requires Appends(w, base, journal)
    ensures base <= journal
  {}

  lemma WaitingMeansSome(journal: seq<Entry>, plan: Plan)
    requires PhaseOf(journal, plan) == Waiting
    ensures journal != []
  {}

  lemma {:induction false} KeysMake(w: World, p: Policy, n: nat, i: nat, held: Policies, base: seq<Entry>, s: Pass)
    requires Standing(w, p, held, s) && Made(w, base, s) && Asked(w, p, n) && i <= |w.eligible(p, p.flows[n])|
    ensures var s' := OverKeys(w, p, p.flows[n], w.eligible(p, p.flows[n]), i, s);
      Standing(w, p, held, s') && Made(w, base, s')
    decreases |w.eligible(p, p.flows[n])| - i
  {
    hide Reserve, Made, Read;
    var flow, keys := p.flows[n], w.eligible(p, p.flows[n]);
    if i < |keys| && s.remaining > 0 {
      if keys[i] in s.used || keys[i] in s.active {
        KeysMake(w, p, n, i + 1, held, base, s);
      } else if Due(w, p, s.checks) {
        ReserveMakes(w, p, n, keys[i], held, base, s);
        KeysMake(w, p, n, i + 1, held, base, Reserve(w, p, flow, keys[i], s));
      } else {
        CheckKeeps(w, base, s);
      }
    }
  }

  lemma CheckKeeps(w: World, base: seq<Entry>, s: Pass)
    requires Made(w, base, s)
    ensures Made(w, base, s.(checks := s.checks + 1))
  {}

  lemma {:induction false} FlowsMake(w: World, p: Policy, i: nat, held: Policies, base: seq<Entry>, s: Pass)
    requires i <= |p.flows| && Standing(w, p, held, s) && Made(w, base, s)
    ensures var s' := OverFlows(w, p, i, s); Standing(w, p, held, s') && Made(w, base, s')
    decreases |p.flows| - i
  {
    hide Made, Read;
    if i < |p.flows| {
      var flow := p.flows[i];
      if (w.only.Some? && w.only.value != flow) || !w.flowOk(flow) {
        FlowsMake(w, p, i + 1, held, base, s);
      } else {
        KeysMake(w, p, i, 0, held, base, s);
        FlowsMake(w, p, i + 1, held, base, OverKeys(w, p, flow, w.eligible(p, flow), 0, s));
      }
    }
  }

  lemma PolicyMakes(w: World, held: Policies, p: Policy, base: seq<Entry>, s: Pass)
    requires Read(s.journal) == Some(held) && Made(w, base, s) && p in held.stage
    ensures var s' := OnePolicy(w, p, held.stage[p], s).pass; Read(s'.journal) == Some(held) && Made(w, base, s')
  {
    hide Read, Reservations, Candidates, OverFlows, Appends, Allowances, InFlight, OverCeiling;
    if held.stage[p] == Authorized && Due(w, p, s.checks) {
      var reserved := Reservations(s.journal, p);
      var start := s.(checks := s.checks + 1, used := Candidates(reserved), remaining := p.max - |reserved|);
      if w.current(p) {
        FlowsMake(w, p, 0, held, base, start);
      }
    }
  }

  lemma {:induction false} PoliciesMake(w: World, held: Policies, i: nat, base: seq<Entry>, s: Pass)
    requires i <= |held.order| && forall k :: 0 <= k < |held.order| ==> held.order[k] in held.stage
    requires Read(s.journal) == Some(held) && Made(w, base, s)
    ensures Made(w, base, OverPolicies(w, held, i, s).pass)
    decreases |held.order| - i
  {
    hide Made, Read, OnePolicy;
    if i < |held.order| {
      PolicyMakes(w, held, held.order[i], base, s);
      PoliciesMake(w, held, i + 1, base, OnePolicy(w, held.order[i], held.stage[held.order[i]], s).pass);
    }
  }

  lemma NothingMade(w: World, journal: seq<Entry>)
    ensures Made(w, journal, StartPass(journal))
  {
    assert journal[|journal|..] == [];
    assert Candidates([]) == {};
    hide InFlight;
  }

  /** Over every journal and world: a pass appends only plans it authorizes at once and authorizations
      under a standing policy, of this code and protocol, whose schedule is authorized, checked inside the
      window, for a candidate that one of its flows lists. What it returns is exactly the plans it
      authorized, in order. */
  lemma PassIsWarranted(w: World, journal: seq<Entry>)
    requires Materialized(w, journal).Some?
    ensures var s := Materialized(w, journal).value.pass;
      Appends(w, journal, s.journal) && s.made == Allowances(s.journal[|journal|..])
  {
    hide Made, Read, InFlight, OverPolicies;
    NothingMade(w, journal);
    OrderIsHeld(journal);
    PoliciesMake(w, Read(journal).value, 0, journal, StartPass(journal));
    MadeMeans(w, journal, Materialized(w, journal).value.pass);
  }

  lemma MadeMeans(w: World, base: seq<Entry>, s: Pass)
    requires Made(w, base, s)
    ensures Appends(w, base, s.journal) && s.made == Allowances(s.journal[|base|..])
    ensures s.active == InFlight(base) + Candidates(s.journal[|base|..])
  {}

  // ---------- nothing left out ----------

  /** Due at every reading of the clock, and still this code and protocol. */
  ghost predicate AlwaysDue(w: World, p: Policy) {
    w.scheduled(p.schedule) && w.current(p) && forall k: nat :: p.notBefore <= w.clock(k) < p.expires
  }

  /** The ceiling is spent, or the candidate is reserved under this policy, in flight, refused by the
      planner, or its plan is past awaiting authorization. */
  predicate Done(w: World, p: Policy, flow: string, key: string, s: Pass) {
    || |Reservations(s.journal, p)| >= p.max
    || key in Candidates(Reservations(s.journal, p)) || key in s.active || w.planner(p, flow, key).None?
    || Settled(PhaseOf(s.journal, Plan(key, p.each, w.planner(p, flow, key).value)))
  }

  ghost predicate Later(s: Pass, s': Pass) {
    && s.active <= s'.active
    && (forall p :: |Reservations(s.journal, p)| <= |Reservations(s'.journal, p)|
                    && Candidates(Reservations(s.journal, p)) <= Candidates(Reservations(s'.journal, p)))
    && (forall plan :: Settled(PhaseOf(s.journal, plan)) ==> Settled(PhaseOf(s'.journal, plan)))
  }

  lemma LaterTwice(a: Pass, b: Pass, c: Pass)
    requires Later(a, b) && Later(b, c)
    ensures Later(a, c)
  {
    hide Reservations, Candidates, PhaseOf, Settled;
  }

  lemma DoneStays(w: World, p: Policy, flow: string, key: string, s: Pass, s': Pass)
    requires Done(w, p, flow, key, s) && Later(s, s')
    ensures Done(w, p, flow, key, s')
  {
    hide Reservations, Candidates, PhaseOf, Settled;
  }

  lemma MoreReserved(journal: seq<Entry>, e: Entry, p: Policy)
    ensures var a, b := Reservations(journal, p), Reservations(journal + [e], p);
      |a| <= |b| && Candidates(a) <= Candidates(b)
  {
    ReservationsSnoc(journal, e, p);
    if Reserves(p, e) { CandidatesSnoc(Reservations(journal, p), e); }
  }

  lemma ReserveLater(w: World, p: Policy, flow: string, key: string, s: Pass)
    ensures Later(s, Reserve(w, p, flow, key, s))
  {
    var s' := Reserve(w, p, flow, key, s);
    forall plan ensures Settled(PhaseOf(s.journal, plan)) ==> Settled(PhaseOf(s'.journal, plan)) {
      ReserveSettles(w, p, flow, key, s, plan);
    }
    forall q
      ensures |Reservations(s.journal, q)| <= |Reservations(s'.journal, q)|
      ensures Candidates(Reservations(s.journal, q)) <= Candidates(Reservations(s'.journal, q))
    {
      ReserveMore(w, p, flow, key, s, q);
    }
    hide PhaseOf, Reservations, Candidates;
  }

  lemma ReserveMore(w: World, p: Policy, flow: string, key: string, s: Pass, q: Policy)
    ensures var a, b := Reservations(s.journal, q), Reservations(Reserve(w, p, flow, key, s).journal, q);
      |a| <= |b| && Candidates(a) <= Candidates(b)
  {
    hide PhaseOf, Reservations, Candidates;
    var frozen := Frozen(w, p, flow, key, s.journal);
    if frozen.Some? {
      var planned, e := s.journal + [OpPlanned(frozen.value)], Authorization(w, p, frozen.value, s.checks);
      MoreReserved(s.journal, OpPlanned(frozen.value), q);
      MoreReserved(planned, e, q);
      MoreReserved(s.journal, e, q);
    }
  }

  /** What the pass remembers of the policy it serves is what the journal says. */
  predicate Ledgered(p: Policy, s: Pass) {
    s.remaining == p.max - |Reservations(s.journal, p)| && s.used <= Candidates(Reservations(s.journal, p))
  }

  lemma ReserveLedgered(w: World, p: Policy, flow: string, key: string, s: Pass)
    requires Ledgered(p, s)
    ensures Ledgered(p, Reserve(w, p, flow, key, s))
  {
    hide PhaseOf, Reservations, Candidates;
    var frozen := Frozen(w, p, flow, key, s.journal);
    if frozen.Some? {
      var planned, e := s.journal + [OpPlanned(frozen.value)], Authorization(w, p, frozen.value, s.checks);
      assert e.plan.candidate == key && Reserves(p, e);
      ReservationsSnoc(s.journal, OpPlanned(frozen.value), p);
      ReservationsSnoc(planned, e, p);
      ReservationsSnoc(s.journal, e, p);
      CandidatesSnoc(Reservations(s.journal, p), e);
    }
  }

  lemma Checked(p: Policy, s: Pass)
    ensures Later(s, s.(checks := s.checks + 1)) && Later(s, s)
    ensures Ledgered(p, s) ==> Ledgered(p, s.(checks := s.checks + 1))
  {
    hide Reservations, Candidates, PhaseOf;
  }

  lemma {:induction false} KeysLater(w: World, p: Policy, flow: string, keys: seq<string>, i: nat, s: Pass)
    requires i <= |keys| && Ledgered(p, s)
    ensures Later(s, OverKeys(w, p, flow, keys, i, s)) && Ledgered(p, OverKeys(w, p, flow, keys, i, s))
    decreases |keys| - i
  {
    hide Reserve, Later, Ledgered;
    Checked(p, s);
    if i < |keys| && s.remaining > 0 {
      if keys[i] in s.used || keys[i] in s.active {
        KeysLater(w, p, flow, keys, i + 1, s);
      } else if Due(w, p, s.checks) {
        var next := Reserve(w, p, flow, keys[i], s);
        ReserveLater(w, p, flow, keys[i], s);
        ReserveLedgered(w, p, flow, keys[i], s);
        KeysLater(w, p, flow, keys, i + 1, next);
        LaterTwice(s, next, OverKeys(w, p, flow, keys, i + 1, next));
      }
    }
  }

  lemma {:induction false} FlowsLater(w: World, p: Policy, i: nat, s: Pass)
    requires i <= |p.flows| && Ledgered(p, s)
    ensures Later(s, OverFlows(w, p, i, s)) && Ledgered(p, OverFlows(w, p, i, s))
    decreases |p.flows| - i
  {
    hide Later, Ledgered;
    Checked(p, s);
    if i < |p.flows| {
      var flow := p.flows[i];
      if (w.only.Some? && w.only.value != flow) || !w.flowOk(flow) {
        FlowsLater(w, p, i + 1, s);
      } else {
        var next := OverKeys(w, p, flow, w.eligible(p, flow), 0, s);
        KeysLater(w, p, flow, w.eligible(p, flow), 0, s);
        FlowsLater(w, p, i + 1, next);
        LaterTwice(s, next, OverFlows(w, p, i + 1, next));
      }
    }
  }

  lemma ServedIsDone(w: World, p: Policy, flow: string, key: string, s: Pass)
    requires Ledgered(p, s) && (s.remaining <= 0 || Served(w, p, flow, key, s))
    ensures Done(w, p, flow, key, s)
  {
    hide Reservations, Candidates, PhaseOf;
  }

  lemma {:induction false} FlowsServe(w: World, p: Policy, i: nat, s: Pass, f: nat, key: string)
    requires i <= f && Asked(w, p, f) && key in w.eligible(p, p.flows[f]) && AlwaysDue(w, p) && Ledgered(p, s)
    ensures Done(w, p, p.flows[f], key, OverFlows(w, p, i, s))
    decreases f - i
  {
    hide Ledgered, Later, Done, Served;
    var flow := p.flows[i];
    var asked := !((w.only.Some? && w.only.value != flow) || !w.flowOk(flow));
    var next := if asked then OverKeys(w, p, flow, w.eligible(p, flow), 0, s) else s;
    if asked { KeysLater(w, p, flow, w.eligible(p, flow), 0, s); }
    if i < f {
      FlowsServe(w, p, i + 1, next, f, key);
    } else {
      var k :| 0 <= k < |w.eligible(p, flow)| && w.eligible(p, flow)[k] == key;
      assert forall n :: Due(w, p, n);
      EveryEligibleIsServed(w, p, flow, w.eligible(p, flow), 0, s, k);
      ServedIsDone(w, p, flow, key, next);
      FlowsLater(w, p, i + 1, next);
      DoneStays(w, p, flow, key, next, OverFlows(w, p, i + 1, next));
    }
  }

  lemma Begun(p: Policy, s: Pass)
    ensures var reserved := Reservations(s.journal, p);
      var start := s.(checks := s.checks + 1, used := Candidates(reserved), remaining := p.max - |reserved|);
      Ledgered(p, start) && Later(s, start)
  {
    hide Reservations, Candidates, PhaseOf;
  }

  lemma PolicyLater(w: World, p: Policy, stage: Stage, s: Pass)
    ensures Later(s, OnePolicy(w, p, stage, s).pass)
  {
    hide Reservations, Candidates, OverFlows, OverCeiling, Later, Ledgered;
    Checked(p, s);
    Begun(p, s);
    var reserved := Reservations(s.journal, p);
    var start := s.(checks := s.checks + 1, used := Candidates(reserved), remaining := p.max - |reserved|);
    FlowsLater(w, p, 0, start);
    LaterTwice(s, start, OverFlows(w, p, 0, start));
  }

  lemma PolicyServes(w: World, p: Policy, s: Pass, f: nat, key: string)
    requires Asked(w, p, f) && key in w.eligible(p, p.flows[f]) && AlwaysDue(w, p) && !OverCeiling(s.journal, p)
    ensures Done(w, p, p.flows[f], key, OnePolicy(w, p, Authorized, s).pass)
  {
    hide OverFlows, OverCeiling, Later, Served;
    Begun(p, s);
    var reserved := Reservations(s.journal, p);
    var start := s.(checks := s.checks + 1, used := Candidates(reserved), remaining := p.max - |reserved|);
    assert Due(w, p, s.checks);
    if start.remaining <= 0 {
      ServedIsDone(w, p, p.flows[f], key, start);
    } else {
      hide Reservations, Candidates, Done, Ledgered;
      FlowsServe(w, p, 0, start, f, key);
    }
  }

  lemma {:induction false} PoliciesLater(w: World, held: Policies, i: nat, s: Pass)
    requires i <= |held.order| && forall k :: 0 <= k < |held.order| ==> held.order[k] in held.stage
    ensures Later(s, OverPolicies(w, held, i, s).pass)
    decreases |held.order| - i
  {
    hide Later, OnePolicy;
    if i < |held.order| {
      var p := held.order[i];
      var round := OnePolicy(w, p, held.stage[p], s);
      PolicyLater(w, p, held.stage[p], s);
      PoliciesLater(w, held, i + 1, round.pass);
      LaterTwice(s, round.pass, OverPolicies(w, held, i + 1, round.pass).pass);
    } else {
      LaterSelf(s);
    }
  }

  lemma LaterSelf(s: Pass)
    ensures Later(s, s)
  {
    hide Reservations, Candidates, PhaseOf;
  }

  lemma {:induction false} PoliciesServe(w: World, held: Policies, i: nat, s: Pass, j: nat, f: nat, key: string)
    requires i <= j < |held.order| && forall k :: 0 <= k < |held.order| ==> held.order[k] in held.stage
    requires Between(held, s) && held.stage[held.order[j]] == Authorized
    requires var p := held.order[j]; Asked(w, p, f) && key in w.eligible(p, p.flows[f]) && AlwaysDue(w, p)
    ensures Done(w, held.order[j], held.order[j].flows[f], key, OverPolicies(w, held, i, s).pass)
    decreases j - i
  {
    hide Later, OnePolicy, Between, Done, OverCeiling, AlwaysDue;
    var q := held.order[i];
    var round := OnePolicy(w, q, held.stage[q], s);
    PolicyKeeps(w, held, q, s);
    if i < j {
      PoliciesServe(w, held, i + 1, round.pass, j, f, key);
    } else {
      BetweenIsSafe(held, s, q);
      PolicyServes(w, q, s, f, key);
      PoliciesLater(w, held, i + 1, round.pass);
      DoneStays(w, q, q.flows[f], key, round.pass, OverPolicies(w, held, i + 1, round.pass).pass);
    }
  }

  lemma BetweenIsSafe(held: Policies, s: Pass, p: Policy)
    requires Between(held, s)
    ensures !OverCeiling(s.journal, p)
  {
    hide OverCeiling, Read, InFlight;
    SafeUnderCeiling(s.journal, p);
  }

  lemma {:induction false} OrderHasAll(journal: seq<Entry>)
    ensures Read(journal).Some? ==>
      forall p :: p in Read(journal).value.stage ==> p in Read(journal).value.order
  {
    if journal != [] { OrderHasAll(journal[..|journal| - 1]); }
  }

  /** Over every run: a pass leaves out nothing it may serve. Of a policy that stays due, every candidate
      that an asked flow lists ends reserved, in flight, refused by the planner or past awaiting
      authorization, unless the ceiling is spent. */
  lemma PassLeavesNothingOut(w: World, steps: seq<CopyPolicyLaws.Step>, p: Policy, f: nat, key: string)
    requires Holds(Run(steps), p, Authorized) && AlwaysDue(w, p) && Asked(w, p, f) && key in w.eligible(p, p.flows[f])
    ensures var base := Run(steps);
      Materialized(w, base).Some? && !Materialized(w, base).value.exceeded &&
      var end := Materialized(w, base).value.pass.journal;
      base <= end && (
      || |Reservations(end, p)| >= p.max || key in Candidates(Reservations(end, p))
      || key in InFlight(base) + Candidates(end[|base|..])
      || w.planner(p, p.flows[f], key).None?
      || PhaseOf(end, Plan(key, p.each, w.planner(p, p.flows[f], key).value)) !in {Absent, Waiting})
  {
    var base := Run(steps);
    hide Run, InFlight, Read, OverPolicies, Reservations, Candidates, PhaseOf, AlwaysDue, Asked;
    RunIsSafe(steps);
    PassKeeps(w, base);
    OrderIsHeld(base);
    OrderHasAll(base);
    var held := Read(base).value;
    var j :| 0 <= j < |held.order| && held.order[j] == p;
    PoliciesServe(w, held, 0, StartPass(base), j, f, key);
    NothingMade(w, base);
    PoliciesMake(w, held, 0, base, StartPass(base));
    MadeMeans(w, base, Materialized(w, base).value.pass);
    hide Appends, Allowances;
  }
}
