/** `claimstone/control.py`, `LoginBudget`: a sliding window of booked failures per operator, each
    method one step under the lock. The clock readings a method takes are its arguments. */
module LoginBudget {
  import opened Seqs

  type Bookings = seq<real>

  ghost predicate Sorted(f: Bookings) {
    forall i, j :: 0 <= i < j < |f| ==> f[i] <= f[j]
  }

  /** Expired bookings leave from the front, as the deque does it. */
  function Pruned(f: Bookings, now: real, window: real): Bookings {
    if f != [] && f[0] <= now - window then Pruned(f[1..], now, window) else f
  }

  /** The bookings that still count at `now`, wherever they stand. */
  function Unexpired(f: Bookings, now: real, window: real): Bookings {
    if f == [] then []
    else (if f[0] > now - window then [f[0]] else []) + Unexpired(f[1..], now, window)
  }

  lemma {:induction false} PruningIsExact(f: Bookings, now: real, window: real)
    requires Sorted(f)
    ensures Pruned(f, now, window) == Unexpired(f, now, window)
  {
    if f != [] {
      if f[0] <= now - window {
        PruningIsExact(f[1..], now, window);
      } else {
        AllUnexpired(f, now, window);
      }
    }
  }

  lemma {:induction false} AllUnexpired(f: Bookings, now: real, window: real)
    requires forall x :: x in f ==> x > now - window
    ensures Unexpired(f, now, window) == f
  {
    if f != [] {
      assert f[0] in f && forall x :: x in f[1..] ==> x in f;
      AllUnexpired(f[1..], now, window);
    }
  }

  lemma {:induction false} PrunedIsSuffix(f: Bookings, now: real, window: real) returns (n: nat)
    ensures n <= |f| && Pruned(f, now, window) == f[n..]
    ensures forall i :: 0 <= i < n ==> f[i] <= now - window
  {
    n := 0;
    if f != [] && f[0] <= now - window {
      n := PrunedIsSuffix(f[1..], now, window);
      n := n + 1;
    }
  }

  // ---------- the steps ----------

  function Reserved(f: Bookings, pruneAt: real, bookAt: real, window: real, limit: int): (Bookings, bool) {
    var live := Pruned(f, pruneAt, window);
    if |live| >= limit then (live, false) else (live + [bookAt], true)
  }

  function Forgiven(f: Bookings): Bookings {
    if f == [] then [] else f[..|f| - 1]
  }

  class LoginBudget {
    const window: real
    const limit: int
    var failures: map<string, Bookings>

    constructor (window: real, limit: int)
      ensures this.window == window && this.limit == limit && failures == map[]
    {
      this.window, this.limit, failures := window, limit, map[];
    }

    function Of(operator: string): Bookings
      reads this
    {
      if operator in failures then failures[operator] else []
    }

    method Prune(operator: string, now: real)
      modifies this
      ensures Of(operator) == Pruned(old(Of(operator)), now, window)
      ensures forall o :: o != operator ==> Of(o) == old(Of(o))
    {
      var f := Of(operator);
      while f != [] && f[0] <= now - window
        invariant Pruned(f, now, window) == Pruned(old(Of(operator)), now, window)
      {
        f := f[1..];
      }
      failures := failures[operator := f];
    }

    method Blocked(operator: string, now: real) returns (blocked: bool)
      modifies this
      ensures old(Of(operator)) != [] ==>
        && Of(operator) == Pruned(old(Of(operator)), now, window)
        && blocked == (|Pruned(old(Of(operator)), now, window)| >= limit)
      ensures old(Of(operator)) == [] ==> !blocked && Of(operator) == []
      ensures forall o :: o != operator ==> Of(o) == old(Of(o))
    {
      if Of(operator) == [] {
        return false;
      }
      Prune(operator, now);
      blocked := |Of(operator)| >= limit;
    }

    /** Refused exactly when `limit` bookings have not expired; a grant books itself. */
    method Reserve(operator: string, pruneAt: real, bookAt: real) returns (ok: bool)
      requires Sorted(Of(operator))
      modifies this
      ensures ok <==> |Unexpired(old(Of(operator)), pruneAt, window)| < limit
      ensures (Of(operator), ok) == Reserved(old(Of(operator)), pruneAt, bookAt, window, limit)
      ensures forall o :: o != operator ==> Of(o) == old(Of(o))
    {
      PruningIsExact(Of(operator), pruneAt, window);
      Prune(operator, pruneAt);
      if |Of(operator)| >= limit {
        return false;
      }
      failures := failures[operator := Of(operator) + [bookAt]];
      return true;
    }

    method Forgive(operator: string)
      modifies this
      ensures Of(operator) == Forgiven(old(Of(operator)))
      ensures forall o :: o != operator ==> Of(o) == old(Of(o))
    {
      if Of(operator) != [] {
        failures := failures[operator := Of(operator)[..|Of(operator)| - 1]];
      }
    }
  }

  // ---------- every interleaving of steps for one operator ----------

  datatype Step = Reserve(pruneAt: real, bookAt: real) | Forgive | Blocked(at: real)

  function After(f: Bookings, s: Step, window: real, limit: int): Bookings {
    match s
    case Reserve(pruneAt, bookAt) => Reserved(f, pruneAt, bookAt, window, limit).0
    case Forgive => Forgiven(f)
    case Blocked(at) => Pruned(f, at, window)
  }

  function Run(f: Bookings, steps: seq<Step>, window: real, limit: int): Bookings {
    if steps == [] then f
    else After(Run(f, steps[..|steps| - 1], window, limit), steps[|steps| - 1], window, limit)
  }

  predicate Granted(f: Bookings, s: Step, window: real, limit: int) {
    s.Reserve? && Reserved(f, s.pruneAt, s.bookAt, window, limit).1
  }

  /** The last reading of a clock that never goes back, or None when it did. */
  function Clock(start: real, steps: seq<Step>): Option<real> {
    if steps == [] then Some(start)
    else
      var before := Clock(start, steps[..|steps| - 1]);
      if before.None? then None
      else match steps[|steps| - 1]
        case Reserve(p, b) => if before.value <= p <= b then Some(b) else None
        case Forgive => before
        case Blocked(at) => if before.value <= at then Some(at) else None
  }

  ghost predicate InOrderBy(f: Bookings, now: real) {
    Sorted(f) && forall i :: 0 <= i < |f| ==> f[i] <= now
  }

  /** On a clock that never goes back, bookings stay sorted and never exceed the limit. */
  lemma {:induction false} BookingsStayWithinLimit(f: Bookings, start: real, steps: seq<Step>, window: real, limit: int)
    requires limit >= 0 && InOrderBy(f, start) && |f| <= limit && Clock(start, steps).Some?
    ensures InOrderBy(Run(f, steps, window, limit), Clock(start, steps).value)
    ensures |Run(f, steps, window, limit)| <= limit
  {
    if steps != [] {
      var front, s := steps[..|steps| - 1], steps[|steps| - 1];
      BookingsStayWithinLimit(f, start, front, window, limit);
      var before := Run(f, front, window, limit);
      StepKeepsOrder(before, Clock(start, front).value, s, window, limit);
    }
  }

  lemma StepKeepsOrder(f: Bookings, now: real, s: Step, window: real, limit: int)
    requires InOrderBy(f, now)
    requires s.Reserve? ==> now <= s.pruneAt <= s.bookAt
    requires s.Blocked? ==> now <= s.at
    ensures var f' := After(f, s, window, limit);
      && InOrderBy(f', match s case Reserve(p, b) => b case Forgive => now case Blocked(at) => at)
      && |f'| <= if |f| <= limit then limit else |f|
  {
    if s.Reserve? {
      var n := PrunedIsSuffix(f, s.pruneAt, window);
    } else if s.Blocked? {
      var n := PrunedIsSuffix(f, s.at, window);
    }
  }

  function Balance(f: Bookings, steps: seq<Step>, window: real, limit: int): int {
    if steps == [] then 0
    else
      var front, s := steps[..|steps| - 1], steps[|steps| - 1];
      Balance(f, front, window, limit)
      + (if Granted(Run(f, front, window, limit), s, window, limit) then 1 else 0)
      - (if s.Forgive? then 1 else 0)
  }

  /** Every booking of the stretch falls in the window-long interval that starts at `from`; a reserve
      may have pruned just before it. */
  predicate Within(steps: seq<Step>, from: real, window: real) {
    forall i :: 0 <= i < |steps| ==>
      match steps[i]
      case Reserve(p, b) => p <= b && from <= b < from + window
      case Forgive => true
      case Blocked(at) => at < from + window
  }

  /** Whatever was booked inside the interval and not given back is still booked at its end. */
  lemma {:induction false} FreshBookingsRemain(f: Bookings, steps: seq<Step>, from: real, window: real, limit: int)
      returns (held: Bookings, recent: Bookings)
    requires Within(steps, from, window)
    ensures Run(f, steps, window, limit) == held + recent
    ensures |recent| >= Balance(f, steps, window, limit)
    ensures forall i :: 0 <= i < |recent| ==> recent[i] >= from
  {
    hide Pruned;
    held, recent := f, [];
    if steps != [] {
      var front, s := steps[..|steps| - 1], steps[|steps| - 1];
      assert forall i :: 0 <= i < |front| ==> front[i] == steps[i];
      held, recent := FreshBookingsRemain(f, front, from, window, limit);
      var before := Run(f, front, window, limit);
      match s {
        case Forgive =>
          if recent != [] {
            assert (held + recent)[..|held + recent| - 1] == held + recent[..|recent| - 1];
            recent := recent[..|recent| - 1];
          } else {
            assert held + [] == held;
            held := Forgiven(held);
          }
        case Blocked(at) =>
          held := PruneKeepsFresh(held, recent, at, window);
        case Reserve(p, b) =>
          var kept := PruneKeepsFresh(held, recent, p, window);
          assert from <= steps[|steps| - 1].bookAt;
          if Granted(before, s, window, limit) {
            assert kept + recent + [b] == kept + (recent + [b]);
            recent := recent + [b];
          }
          held := kept;
      }
    }
  }

  lemma PruneKeepsFresh(held: Bookings, recent: Bookings, now: real, window: real) returns (kept: Bookings)
    requires forall i :: 0 <= i < |recent| ==> recent[i] > now - window
    ensures Pruned(held + recent, now, window) == kept + recent
  {
    var n := PrunedIsSuffix(held + recent, now, window);
    forall i | |held| <= i < |held + recent| ensures (held + recent)[i] > now - window {
      assert (held + recent)[i] == recent[i - |held|];
    }
    assert n <= |held| by {
      if recent != [] {
        assert (held + recent)[|held|] == recent[0];
      }
    }
    kept := held[n..];
    assert (held + recent)[n..] == kept + recent;
  }

  /** However reserves, forgives and checks interleave, in every window-long interval the reserves
      granted exceed the forgives by at most the limit. */
  lemma WindowIsNeverExceeded(f: Bookings, start: real, before: seq<Step>, stretch: seq<Step>, from: real,
                              window: real, limit: int)
    requires limit >= 0 && InOrderBy(f, start) && |f| <= limit
    requires Clock(start, before + stretch).Some? && Within(stretch, from, window)
    ensures Balance(Run(f, before, window, limit), stretch, window, limit) <= limit
  {
    BookingsStayWithinLimit(f, start, before + stretch, window, limit);
    RunConcat(f, before, stretch, window, limit);
    var _, _ := FreshBookingsRemain(Run(f, before, window, limit), stretch, from, window, limit);
  }

  lemma {:induction false} RunConcat(f: Bookings, a: seq<Step>, b: seq<Step>, window: real, limit: int)
    ensures Run(f, a + b, window, limit) == Run(Run(f, a, window, limit), b, window, limit)
  {
    if b == [] {
      assert a + b == a;
    } else {
      assert (a + b)[..|a + b| - 1] == a + b[..|b| - 1];
      RunConcat(f, a, b[..|b| - 1], window, limit);
    }
  }
}
