/** When a session is found, in terms of its owner's own requests and their times. */
module SessionsLaws {
  import opened Seqs
  import opened Sessions

  /** The login at `c`, or a look-up of its token after it. */
  predicate IsTouch(steps: seq<Step>, c: nat, i: nat) {
    c <= i < |steps| && steps[c].Create? && (i == c || (steps[i].Get? && steps[i].token == steps[c].token))
  }

  function TimeOf(step: Step): int { if Timed(step) then step.now else 0 }

  /** Not past the lifetime the login gave, and within the idle time of a touch before step `n`. */
  ghost predicate InTime(l: Limits, steps: seq<Step>, c: nat, n: nat, at: int)
    requires c < |steps|
  {
    at <= TimeOf(steps[c]) + l.absolute
    && exists i: nat :: i < n && IsTouch(steps, c, i) && at <= TimeOf(steps[i]) + l.idle
  }

  /** The step takes the session of this login away. */
  predicate Ends(step: Step, token: string, operator: string) {
    match step
    case Create(t, _, _) => t == token
    case End(t) => t == token
    case EndWhere(who, keep, _) => who == operator && keep != Some(token)
    case _ => false
  }

  /** The login at `c` is the token's last, nothing has ended its session, and each look-up came in time. */
  ghost predicate Unbroken(l: Limits, steps: seq<Step>, token: string, c: nat) {
    && c < |steps| && steps[c].Create? && steps[c].token == token
    && (forall i :: c < i < |steps| ==> !Ends(steps[i], token, steps[c].session.operator))
    && forall j: nat :: c < j && IsTouch(steps, c, j) ==> InTime(l, steps, c, j, TimeOf(steps[j]))
  }

  // ---------- one more step ----------

  lemma InTimeBefore(l: Limits, front: seq<Step>, step: Step, c: nat, n: nat, at: int)
    requires c < |front| && n <= |front|
    ensures InTime(l, front + [step], c, n, at) <==> InTime(l, front, c, n, at)
  {
    var steps := front + [step];
    assert forall i: nat :: i < |front| ==> steps[i] == front[i];
    assert forall i: nat :: i < n ==> (IsTouch(steps, c, i) <==> IsTouch(front, c, i));
  }

  lemma UnbrokenSnoc(l: Limits, front: seq<Step>, step: Step, token: string, c: nat)
    requires c < |front|
    ensures Unbroken(l, front + [step], token, c) <==>
      && Unbroken(l, front, token, c) && !Ends(step, token, front[c].session.operator)
      && (step.Get? && step.token == token ==> InTime(l, front, c, |front|, step.now))
  {
    var steps, n := front + [step], |front|;
    assert forall i: nat :: i < n ==> steps[i] == front[i];
    assert steps[n] == step;
    assert forall j: nat :: j < n ==> (IsTouch(steps, c, j) <==> IsTouch(front, c, j));
    forall j: nat, at | j <= n ensures InTime(l, steps, c, j, at) <==> InTime(l, front, c, j, at) {
      InTimeBefore(l, front, step, c, j, at);
    }
    hide InTime;
    if Unbroken(l, steps, token, c) {
      assert forall i :: c < i < n ==> !Ends(steps[i], token, steps[c].session.operator);
      assert !Ends(steps[n], token, steps[c].session.operator);
      assert IsTouch(steps, c, n) <==> step.Get? && step.token == token;
    }
  }

  /** `h` is what the login at `c` and its touches so far come to. */
  ghost predicate StandsFor(l: Limits, steps: seq<Step>, c: nat, h: Held) {
    && c < |steps| && steps[c].Create? && h.dies == TimeOf(steps[c]) + l.absolute
    && h.session.operator == steps[c].session.operator && h.session.id == steps[c].session.id
    && exists i: nat :: IsTouch(steps, c, i) && h.expires == TimeOf(steps[i]) + l.idle && NoLaterTouch(steps, c, i)
  }

  ghost predicate NoLaterTouch(steps: seq<Step>, c: nat, i: nat)
    requires i < |steps|
  {
    forall k: nat :: IsTouch(steps, c, k) ==> TimeOf(steps[k]) <= TimeOf(steps[i])
  }

  /** What was held is in time exactly while it is live. */
  lemma InTimeIsLive(l: Limits, steps: seq<Step>, c: nat, h: Held, at: int)
    requires StandsFor(l, steps, c, h)
    ensures InTime(l, steps, c, |steps|, at) <==> Live(h, at)
  {
    var i: nat :| IsTouch(steps, c, i) && h.expires == TimeOf(steps[i]) + l.idle && NoLaterTouch(steps, c, i);
    if InTime(l, steps, c, |steps|, at) {
      var k: nat :| k < |steps| && IsTouch(steps, c, k) && at <= TimeOf(steps[k]) + l.idle;
    }
  }

  lemma StandsSnoc(l: Limits, front: seq<Step>, step: Step, c: nat, h: Held, h': Held)
    requires StandsFor(l, front, c, h) && h'.dies == h.dies
    requires (h'.session.operator, h'.session.id) == (h.session.operator, h.session.id)
    requires step.Get? && step.token == front[c].token ==>
      h'.expires == step.now + l.idle && Clocked(front, step.now)
    requires !(step.Get? && step.token == front[c].token) ==> h'.expires == h.expires
    ensures StandsFor(l, front + [step], c, h')
  {
    var steps, n := front + [step], |front|;
    assert forall i: nat :: i < n ==> steps[i] == front[i];
    assert steps[n] == step;
    assert forall j: nat :: j < n ==> (IsTouch(steps, c, j) <==> IsTouch(front, c, j));
    var i: nat :| IsTouch(front, c, i) && h.expires == TimeOf(front[i]) + l.idle && NoLaterTouch(front, c, i);
    if step.Get? && step.token == front[c].token {
      assert IsTouch(steps, c, n) && NoLaterTouch(steps, c, n);
    } else {
      assert IsTouch(steps, c, i) && NoLaterTouch(steps, c, i);
    }
  }

  // ---------- a whole history ----------

  lemma UniqueUnbroken(l: Limits, steps: seq<Step>, token: string, a: nat, b: nat)
    requires Unbroken(l, steps, token, a) && Unbroken(l, steps, token, b)
    ensures a == b
  {
    if a < b {
      assert Ends(steps[b], token, steps[a].session.operator);
    } else if b < a {
      assert Ends(steps[a], token, steps[b].session.operator);
    }
  }

  ghost predicate Stands(l: Limits, steps: seq<Step>, token: string, h: Held) {
    exists c: nat :: Unbroken(l, steps, token, c) && StandsFor(l, steps, c, h)
  }

  ghost predicate Lapsed(l: Limits, steps: seq<Step>, token: string, now: int) {
    forall c: nat :: Unbroken(l, steps, token, c) ==> !InTime(l, steps, c, |steps|, now)
  }

  ghost predicate Tells(l: Limits, steps: seq<Step>, token: string, own: Option<Held>, now: int) {
    if own.Some? then Stands(l, steps, token, own.value) else Lapsed(l, steps, token, now)
  }

  lemma LoginTells(l: Limits, front: seq<Step>, step: Step)
    requires step.Create?
    ensures Stands(l, front + [step], step.token, Fresh(l, step.session, step.now))
  {
    var steps, n := front + [step], |front|;
    assert steps[n] == step;
    assert forall i: nat :: IsTouch(steps, n, i) <==> i == n;
    assert Unbroken(l, steps, step.token, n);
    assert NoLaterTouch(steps, n, n);
  }

  /** A step that keeps a live session standing. */
  lemma KeptTells(l: Limits, front: seq<Step>, step: Step, token: string, h: Held, h': Held)
    requires Stands(l, front, token, h) && !Ends(step, token, h.session.operator) && h'.dies == h.dies
    requires (h'.session.operator, h'.session.id) == (h.session.operator, h.session.id)
    requires step.Get? && step.token == token ==>
      Live(h, step.now) && h'.expires == step.now + l.idle && Clocked(front, step.now)
    requires !(step.Get? && step.token == token) ==> h'.expires == h.expires
    ensures Stands(l, front + [step], token, h')
  {
    var c: nat :| Unbroken(l, front, token, c) && StandsFor(l, front, c, h);
    hide InTime, Live, Clocked;
    if step.Get? && step.token == token { InTimeIsLive(l, front, c, h, step.now); }
    UnbrokenSnoc(l, front, step, token, c);
    StandsSnoc(l, front, step, c, h, h');
  }

  lemma StaysLapsed(l: Limits, front: seq<Step>, step: Step, token: string, last: int, now: int)
    requires Lapsed(l, front, token, last) && last <= now && (step.Get? && step.token == token ==> step.now == last)
    requires !(step.Create? && step.token == token)
    ensures Lapsed(l, front + [step], token, now)
  {
    var steps, n := front + [step], |front|;
    assert steps[n] == step;
    forall c: nat | Unbroken(l, steps, token, c) ensures !InTime(l, steps, c, |steps|, now) {
      assert c != n;
      UnbrokenSnoc(l, front, step, token, c);
      InTimeBefore(l, front, step, c, n, now);
      NoTouch(l, front, step, c, now);
    }
  }

  lemma NoTouch(l: Limits, front: seq<Step>, step: Step, c: nat, now: int)
    requires c < |front| && front[c].Create? && !(step.Get? && step.token == front[c].token)
    ensures InTime(l, front + [step], c, |front| + 1, now) ==> InTime(l, front + [step], c, |front|, now)
  {
    var steps := front + [step];
    assert steps[|front|] == step && steps[c] == front[c];
    assert !IsTouch(steps, c, |front|);
  }

  lemma GoneTells(l: Limits, front: seq<Step>, step: Step, token: string, h: Held, now: int)
    requires Stands(l, front, token, h) && !(step.Create? && step.token == token)
    requires Ends(step, token, h.session.operator) || (Timed(step) && !Live(h, step.now) && step.now <= now)
    ensures Lapsed(l, front + [step], token, now)
  {
    var c: nat :| Unbroken(l, front, token, c) && StandsFor(l, front, c, h);
    if Ends(step, token, h.session.operator) {
      var steps, n := front + [step], |front|;
      assert steps[n] == step;
      forall a: nat ensures !Unbroken(l, steps, token, a) {
        if a < n {
          UnbrokenSnoc(l, front, step, token, a);
          if Unbroken(l, front, token, a) { UniqueUnbroken(l, front, token, a, c); }
        }
      }
    } else {
      InTimeIsLive(l, front, c, h, step.now);
      forall a: nat | Unbroken(l, front, token, a) ensures !InTime(l, front, a, |front|, step.now) {
        UniqueUnbroken(l, front, token, a, c);
      }
      StaysLapsed(l, front, step, token, step.now, now);
    }
  }

  lemma {:induction false} OwnTells(l: Limits, steps: seq<Step>, token: string, now: int)
    requires Clocked(steps, now)
    ensures Tells(l, steps, token, Own(l, steps, token), now)
  {
    if steps != [] {
      var n := |steps| - 1;
      var front, step := steps[..n], steps[n];
      var last := if Timed(step) then step.now else now;
      assert forall j :: 0 <= j < n ==> front[j] == steps[j];
      assert Clocked(front, last);
      OwnTells(l, front, token, last);
      assert steps == front + [step];
      StepTells(l, front, step, token, last, now);
    }
  }

  lemma StepTells(l: Limits, front: seq<Step>, step: Step, token: string, last: int, now: int)
    requires Tells(l, front, token, Own(l, front, token), last) && Clocked(front, last) && last <= now
    requires Timed(step) ==> step.now == last
    ensures Tells(l, front + [step], token, Own(l, front + [step], token), now)
  {
    var before, after := Own(l, front, token), Own(l, front + [step], token);
    OwnSnoc(l, front, step, token);
    hide Own, Stands, Lapsed, Clocked;
    if step.Create? && step.token == token {
      LoginTells(l, front, step);
    } else if before.None? {
      StaysLapsed(l, front, step, token, last, now);
    } else if after.Some? {
      KeptTells(l, front, step, token, before.value, after.value);
    } else {
      GoneTells(l, front, step, token, before.value, now);
    }
  }

  lemma OwnSnoc(l: Limits, front: seq<Step>, step: Step, token: string)
    ensures var before := Own(l, front, token);
      Own(l, front + [step], token) ==
        if !Concerns(step, token, before) then before
        else At(After(l, if before.Some? then map[token := before.value] else map[], step), token)
  {
    assert (front + [step])[..|front|] == front;
  }

  /** A session is found exactly when the token's last login has not been ended, by its token or through
      its operator, every look-up since came within the idle time of the one before and within the
      lifetime, and so does this one. */
  lemma FoundExactlyWhen(l: Limits, steps: seq<Step>, token: string, now: int)
    requires Clocked(steps, now)
    ensures Found(Own(l, steps, token), now).Some? <==>
      exists c: nat :: Unbroken(l, steps, token, c) && InTime(l, steps, c, |steps|, now)
  {
    OwnTells(l, steps, token, now);
    var own := Own(l, steps, token);
    hide Own, InTime, Live;
    if own.Some? {
      var c: nat :| Unbroken(l, steps, token, c) && StandsFor(l, steps, c, own.value);
      InTimeIsLive(l, steps, c, own.value, now);
      forall a: nat | Unbroken(l, steps, token, a) ensures a == c {
        UniqueUnbroken(l, steps, token, a, c);
      }
    }
  }

  /** Listing names exactly the sessions of the operator that a look-up would find at that moment. */
  lemma ListedAreFound(l: Limits, table: map<string, Held>, operator: string, now: int, id: string)
    ensures id in Ids(After(l, table, ListFor(now)), operator) <==>
      exists t :: t in table && Found(At(table, t), now).Some? && table[t].session.operator == operator
                  && table[t].session.id == id
  {
    var listed := After(l, table, ListFor(now));
    if id in Ids(listed, operator) {
      var t :| t in listed && listed[t].session.operator == operator && listed[t].session.id == id;
      assert Found(At(table, t), now).Some?;
    }
    if t :| t in table && Found(At(table, t), now).Some? && table[t].session.operator == operator
            && table[t].session.id == id {
      assert t in listed && listed[t] == table[t];
    }
  }
}
