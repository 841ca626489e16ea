/** `claimstone/control.py`: in-memory sessions with an inactivity timeout and an absolute lifetime.
    Every method is one atomic step under the object's lock. */
module Sessions {
  import opened Seqs

  datatype Session = Session(operator: string, id: string, mustChange: bool, stamp: string)

  /** One session as the tables hold it: until when it is idle-valid, and when it dies regardless. */
  datatype Held = Held(expires: int, dies: int, session: Session)

  predicate Live(h: Held, now: int) { now <= h.expires && now <= h.dies }

  /** At a deadline or past it. */
  function Due(table: map<string, Held>, now: int): set<string> {
    set t | t in table && (table[t].expires <= now || table[t].dies <= now)
  }

  /** Past a deadline. */
  function Past(table: map<string, Held>, now: int): set<string> { set t | t in table && !Live(table[t], now) }

  function Theirs(table: map<string, Held>, operator: string): set<string> {
    set t | t in table && table[t].session.operator == operator
  }

  function Ids(table: map<string, Held>, operator: string): set<string> {
    set t | t in table && table[t].session.operator == operator :: table[t].session.id
  }

  datatype Step =
    | Create(token: string, session: Session, now: int)
    | Get(token: string, now: int)
    | End(token: string)
    | ClearMustChange(token: string)
    | SetStamp(token: string, stamp: string)
    | ListFor(now: int)
    | EndWhere(operator: string, keep: Option<string>, now: int)

  datatype Limits = Limits(idle: int, absolute: int)

  function Fresh(l: Limits, s: Session, now: int): Held { Held(now + l.idle, now + l.absolute, s) }

  /** A login also forgets every session at or past a deadline; listing forgets those past one. */
  function After(l: Limits, table: map<string, Held>, step: Step): map<string, Held> {
    match step
    case Create(t, s, now) => (table - Due(table, now))[t := Fresh(l, s, now)]
    case Get(t, now) =>
      if t !in table then table
      else if Live(table[t], now) then table[t := table[t].(expires := now + l.idle)]
      else table - {t}
    case End(t) => table - {t}
    case ClearMustChange(t) =>
      if t in table then table[t := table[t].(session := table[t].session.(mustChange := false))] else table
    case SetStamp(t, stamp) =>
      if t in table then table[t := table[t].(session := table[t].session.(stamp := stamp))] else table
    case ListFor(now) => table - Past(table, now)
    case EndWhere(operator, keep, now) => table - Past(table, now) - Doomed(table - Past(table, now), operator, keep)
  }

  function Doomed(table: map<string, Held>, operator: string, keep: Option<string>): set<string> {
    Theirs(table, operator) - (if keep.Some? then {keep.value} else {})
  }

  function Found(view: Option<Held>, now: int): Option<Session> {
    if view.Some? && Live(view.value, now) then Some(view.value.session) else None
  }

  function At(table: map<string, Held>, token: string): Option<Held> {
    if token in table then Some(table[token]) else None
  }

  class Sessions {
    const limits: Limits
    var expires: map<string, int>
    var dies: map<string, int>
    var rows: map<string, Session>

    ghost predicate Valid()
      reads this
    {
      expires.Keys == dies.Keys == rows.Keys
    }

    ghost function Table(): map<string, Held>
      reads this
      requires Valid()
    {
      map t | t in rows :: Held(expires[t], dies[t], rows[t])
    }

    constructor (limits: Limits)
      ensures Valid() && Table() == map[] && this.limits == limits
    {
      this.limits := limits;
      expires, dies, rows := map[], map[], map[];
    }

    method Forget(gone: set<string>)
      requires Valid()
      modifies this
      ensures Valid() && Table() == old(Table()) - gone
    {
      expires, dies, rows := expires - gone, dies - gone, rows - gone;
    }

    method Login(token: string, session: Session, now: int)
      requires Valid()
      modifies this
      ensures Valid() && Table() == After(limits, old(Table()), Create(token, session, now))
    {
      hide Due;
      DropDue(now);
      Put(token, Fresh(limits, session, now));
    }

    method Put(token: string, held: Held)
      requires Valid()
      modifies this
      ensures Valid() && Table() == old(Table())[token := held]
    {
      expires := expires[token := held.expires];
      dies := dies[token := held.dies];
      rows := rows[token := held.session];
    }

    method DropDue(now: int)
      requires Valid()
      modifies this
      ensures Valid() && Table() == old(Table()) - Due(old(Table()), now)
    {
      var due := set t | t in expires && (expires[t] <= now || dies[t] <= now);
      assert due == Due(Table(), now);
      Forget(due);
    }

    method Lookup(token: string, now: int) returns (session: Option<Session>)
      requires Valid()
      modifies this
      ensures Valid() && Table() == After(limits, old(Table()), Get(token, now))
      ensures session == Found(At(old(Table()), token), now)
    {
      if token !in expires {
        return None;
      }
      if now > expires[token] || now > dies[token] {
        Forget({token});
        return None;
      }
      expires := expires[token := now + limits.idle];
      session := Some(rows[token]);
    }

    method Logout(token: string)
      requires Valid()
      modifies this
      ensures Valid() && Table() == After(limits, old(Table()), End(token))
    {
      Forget({token});
    }

    method PasswordChanged(token: string)
      requires Valid()
      modifies this
      ensures Valid() && Table() == After(limits, old(Table()), ClearMustChange(token))
    {
      if token in rows {
        rows := rows[token := rows[token].(mustChange := false)];
      }
    }

    method Stamp(token: string, stamp: string)
      requires Valid()
      modifies this
      ensures Valid() && Table() == After(limits, old(Table()), SetStamp(token, stamp))
    {
      if token in rows {
        rows := rows[token := rows[token].(stamp := stamp)];
      }
    }

    method Prune(now: int)
      requires Valid()
      modifies this
      ensures Valid() && Table() == old(Table()) - Past(old(Table()), now)
    {
      var past := set t | t in expires && (now > expires[t] || now > dies[t]);
      assert past == Past(Table(), now);
      Forget(past);
    }

    method List(operator: string, now: int) returns (ids: set<string>)
      requires Valid()
      modifies this
      ensures Valid() && Table() == After(limits, old(Table()), ListFor(now))
      ensures ids == Ids(Table(), operator)
    {
      Prune(now);
      var theirs := TokensOf(operator);
      ids := set t | t in theirs :: rows[t].id;
      forall id ensures id in ids <==> id in Ids(Table(), operator) {
        if id in ids {
          var t :| t in theirs && rows[t].id == id;
          assert t in Table();
        }
      }
    }

    method TokensOf(operator: string) returns (tokens: set<string>)
      requires Valid()
      ensures tokens == Theirs(Table(), operator)
    {
      tokens := set t | t in rows && rows[t].operator == operator;
    }

    /** End every session of an operator but one; `None` ends them all. */
    method EndAll(operator: string, keep: Option<string>, now: int) returns (ended: nat)
      requires Valid()
      modifies this
      ensures Valid() && Table() == After(limits, old(Table()), EndWhere(operator, keep, now))
      ensures ended == |Doomed(old(Table()) - Past(old(Table()), now), operator, keep)|
    {
      Prune(now);
      hide Past, Theirs;
      var doomed := TokensOf(operator);
      doomed := doomed - (if keep.Some? then {keep.value} else {});
      ended := |doomed|;
      Forget(doomed);
    }
  }

  // ---------- one session's own history ----------

  function Run(l: Limits, steps: seq<Step>): map<string, Held> {
    if steps == [] then map[] else After(l, Run(l, steps[..|steps| - 1]), steps[|steps| - 1])
  }

  /** The step is about this token, or ends sessions of the operator whose session it is. */
  predicate Concerns(step: Step, token: string, view: Option<Held>) {
    if step.EndWhere? then view.Some? && view.value.session.operator == step.operator
    else !step.ListFor? && step.token == token
  }

  /** The session as requests about itself or about its operator alone determine it. */
  function Own(l: Limits, steps: seq<Step>, token: string): Option<Held> {
    if steps == [] then None
    else
      var before, step := Own(l, steps[..|steps| - 1], token), steps[|steps| - 1];
      if !Concerns(step, token, before) then before
      else At(After(l, if before.Some? then map[token := before.value] else map[], step), token)
  }

  predicate Timed(step: Step) { step.Create? || step.Get? || step.ListFor? || step.EndWhere? }

  /** The clock never runs backwards, and `now` is not before its last reading. */
  ghost predicate Clocked(steps: seq<Step>, now: int) {
    (forall i, j :: 0 <= i < j < |steps| && Timed(steps[i]) && Timed(steps[j]) ==> steps[i].now <= steps[j].now)
    && forall i :: 0 <= i < |steps| && Timed(steps[i]) ==> steps[i].now <= now
  }

  /** Nobody logs in at the very instant another live session reaches a deadline. */
  ghost predicate NoLoginAtADeadline(l: Limits, steps: seq<Step>) {
    forall j, t :: 0 <= j < |steps| && steps[j].Create? && steps[j].token != t ==>
      Unscathed(l, steps[..j], steps[j].now, t)
  }

  ghost predicate Unscathed(l: Limits, before: seq<Step>, now: int, t: string) {
    Own(l, before, t).Some? && Live(Own(l, before, t).value, now) ==>
      now < Own(l, before, t).value.expires && now < Own(l, before, t).value.dies
  }

  /** At every moment, looking any token up finds exactly what its owner's own history says. */
  ghost predicate OwnHistoryDecides(l: Limits, steps: seq<Step>) {
    forall n, t, now :: 0 <= n <= |steps| && Clocked(steps[..n], now) ==> Agrees(l, steps[..n], t, now)
  }

  ghost predicate Agrees(l: Limits, steps: seq<Step>, t: string, now: int) {
    Found(At(Run(l, steps), t), now) == Found(Own(l, steps, t), now)
  }

  /** The table holds what the owner's history says, or has forgotten a session already past a deadline. */
  ghost predicate Tracks(l: Limits, steps: seq<Step>, t: string, now: int) {
    var held, own := At(Run(l, steps), t), Own(l, steps, t);
    if held.Some? then own == held else own.None? || !Live(own.value, now)
  }

  lemma {:induction false} RunTracks(l: Limits, steps: seq<Step>, t: string, now: int)
    requires Clocked(steps, now) && NoLoginAtADeadline(l, steps)
    ensures Tracks(l, steps, t, now)
  {
    if steps != [] {
      var n := |steps| - 1;
      var front, step := steps[..n], steps[n];
      var last := if Timed(step) then step.now else now;
      assert forall j :: 0 <= j < n ==> steps[..j] == front[..j] && front[j] == steps[j];
      RunTracks(l, front, t, last);
      assert steps[..n] == front;
      assert step.Create? && step.token != t ==> Unscathed(l, front, step.now, t);
    }
  }

  /** Other people's logins, look-ups and listings never affect a session if and only if nobody logs
      in at the exact instant another live session reaches a deadline. */
  lemma OwnHistoryDecidesExactlyWhen(l: Limits, steps: seq<Step>, now: int)
    requires Clocked(steps, now)
    ensures OwnHistoryDecides(l, steps) <==> NoLoginAtADeadline(l, steps)
  {
    if NoLoginAtADeadline(l, steps) {
      forall n, t, then' | 0 <= n <= |steps| && Clocked(steps[..n], then') ensures Agrees(l, steps[..n], t, then') {
        assert forall j :: 0 <= j < n ==> steps[..n][..j] == steps[..j];
        RunTracks(l, steps[..n], t, then');
      }
    }
    if OwnHistoryDecides(l, steps) {
      forall j, t | 0 <= j < |steps| && steps[j].Create? && steps[j].token != t
        ensures Unscathed(l, steps[..j], steps[j].now, t)
      {
        assert steps[..j + 1] == steps[..j] + [steps[j]];
        assert Clocked(steps[..j + 1], steps[j].now);
        assert Agrees(l, steps[..j + 1], t, steps[j].now);
        LoginForgets(l, steps[..j], steps[j], t);
      }
    }
  }

  lemma LoginForgets(l: Limits, before: seq<Step>, login: Step, t: string)
    requires login.Create? && login.token != t && Agrees(l, before + [login], t, login.now)
    ensures Unscathed(l, before, login.now, t)
  {
    assert (before + [login])[..|before|] == before;
    HeldIsOwn(l, before, t);
  }

  lemma {:induction false} HeldIsOwn(l: Limits, steps: seq<Step>, t: string)
    ensures t in Run(l, steps) ==> Own(l, steps, t) == Some(Run(l, steps)[t])
  {
    if steps != [] {
      HeldIsOwn(l, steps[..|steps| - 1], t);
    }
  }

  /** The absolute lifetime is absolute: whatever its owner does, a session is never found after it. */
  lemma {:induction false} NeverOutlivesItsLifetime(l: Limits, steps: seq<Step>, t: string, born: int)
    requires forall i :: 0 <= i < |steps| && steps[i].Create? && steps[i].token == t ==> steps[i].now <= born
    ensures Own(l, steps, t).Some? ==> Own(l, steps, t).value.dies <= born + l.absolute
  {
    if steps != [] {
      NeverOutlivesItsLifetime(l, steps[..|steps| - 1], t, born);
    }
  }

  /** It can forget one: a login at the instant another session reaches its idle deadline drops that
      session, although a look-up at that instant would still have found it. */
  lemma LoginAtADeadlineForgets(l: Limits, mine: Session, other: Session)
    requires 0 < l.idle <= l.absolute
    ensures var first, second := Create("mine", mine, 0), Create("other", other, l.idle);
            && Found(At(Run(l, [first]), "mine"), l.idle) == Some(mine)
            && Found(Own(l, [first, second], "mine"), l.idle) == Some(mine)
            && Found(At(Run(l, [first, second]), "mine"), l.idle) == None
  {
    var first, second := Create("mine", mine, 0), Create("other", other, l.idle);
    assert [first, second][..1] == [first] && [first][..0] == [];
    assert "mine" != "other";
    assert Run(l, [first]) == map["mine" := Fresh(l, mine, 0)];
  }
}
