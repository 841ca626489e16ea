/** A profile depends on the evidence, not on the order it is read in, and its counts add up. */
module EvidenceLaws {
  import opened Seqs
  import opened Sums
  import opened Evidence

  // ---------- reordering ----------

  /** `a` with the element at `i` taken out. */
  function Dropped<T>(s: seq<T>, i: nat): seq<T>
    requires i < |s|
  {
    s[..i] + s[i + 1..]
  }

  lemma SameSize<T>(a: seq<T>, b: seq<T>)
    requires multiset(a) == multiset(b)
    ensures |a| == |b|
  {
    assert |multiset(a)| == |a| && |multiset(b)| == |b|;
  }

  lemma TakeOut<T>(a: seq<T>, b: seq<T>) returns (i: nat)
    requires a != [] && multiset(a) == multiset(b)
    ensures i < |b| && b[i] == a[|a| - 1] && multiset(a[..|a| - 1]) == multiset(Dropped(b, i))
  {
    var n := |a| - 1;
    assert a == a[..n] + [a[n]];
    assert a[n] in multiset(a);
    assert a[n] in b;
    i :| 0 <= i < |b| && b[i] == a[n];
    assert b == b[..i] + [b[i]] + b[i + 1..];
    assert multiset(Dropped(b, i)) == multiset(b) - multiset{b[i]};
    assert multiset(a[..n]) == multiset(a) - multiset{a[n]};
  }

  lemma {:induction false} CountByDropped<T>(s: seq<T>, key: T -> Option<string>, i: nat)
    requires i < |s|
    ensures CountBy(s, key) ==
      if key(s[i]).None? then CountBy(Dropped(s, i), key) else OneMore(CountBy(Dropped(s, i), key), key(s[i]).value)
    decreases |s|
  {
    var n := |s| - 1;
    if i == n {
      assert Dropped(s, i) == s[..n];
    } else {
      CountByDropped(s[..n], key, i);
      assert s[..n][i] == s[i];
      var less := Dropped(s, i);
      assert less[..|less| - 1] == Dropped(s[..n], i) && less[|less| - 1] == s[n];
      OneMoreCommutes(CountBy(Dropped(s[..n], i), key), key(s[i]), key(s[n]));
    }
  }

  function Added(counts: map<string, nat>, k: Option<string>): map<string, nat> {
    if k.None? then counts else OneMore(counts, k.value)
  }

  lemma OneMoreCommutes(counts: map<string, nat>, a: Option<string>, b: Option<string>)
    ensures Added(Added(counts, a), b) == Added(Added(counts, b), a)
  {}

  /** Counts do not depend on order. */
  lemma {:induction false} CountByReordered<T>(a: seq<T>, b: seq<T>, key: T -> Option<string>)
    requires multiset(a) == multiset(b)
    ensures CountBy(a, key) == CountBy(b, key)
    decreases |a|
  {
    if a == [] {
      SameSize(a, b);
    } else {
      var i := TakeOut(a, b);
      CountByReordered(a[..|a| - 1], Dropped(b, i), key);
      CountByDropped(b, key, i);
    }
  }

  lemma {:induction false} FilterReordered<T>(a: seq<T>, b: seq<T>, keep: T -> bool)
    requires multiset(a) == multiset(b)
    ensures multiset(Filter(keep, a)) == multiset(Filter(keep, b))
    decreases |a|
  {
    if a == [] {
      SameSize(a, b);
    } else {
      var n := |a| - 1;
      var i := TakeOut(a, b);
      FilterReordered(a[..n], Dropped(b, i), keep);
      assert a == a[..n] + [a[n]] && b == b[..i] + ([b[i]] + b[i + 1..]);
      FilterConcat(keep, a[..n], [a[n]]);
      FilterConcat(keep, b[..i], [b[i]] + b[i + 1..]);
      FilterConcat(keep, [b[i]], b[i + 1..]);
      FilterConcat(keep, b[..i], b[i + 1..]);
    }
  }

  lemma {:induction false} ApplyReordered<A, B>(a: seq<A>, b: seq<A>, f: A -> B)
    requires multiset(a) == multiset(b)
    ensures multiset(Apply(f, a)) == multiset(Apply(f, b))
    decreases |a|
  {
    if a == [] {
      SameSize(a, b);
    } else {
      var n := |a| - 1;
      var i := TakeOut(a, b);
      ApplyReordered(a[..n], Dropped(b, i), f);
      assert Apply(f, a) == Apply(f, a[..n]) + [f(a[n])];
      assert Apply(f, b) == Apply(f, b[..i]) + [f(b[i])] + Apply(f, b[i + 1..]);
      assert Apply(f, Dropped(b, i)) == Apply(f, b[..i]) + Apply(f, b[i + 1..]);
    }
  }

  ghost predicate DistinctIds(rs: seq<Result>) {
    forall i, j :: 0 <= i < j < |rs| ==> rs[i].id != rs[j].id
  }

  ghost predicate StrictlyOrdered(rs: seq<Result>) {
    forall i, j :: 0 <= i < j < |rs| ==> Before(rs[i], rs[j])
  }

  lemma HeadsAgree(a: seq<Result>, b: seq<Result>)
    requires StrictlyOrdered(a) && StrictlyOrdered(b) && multiset(a) == multiset(b) && a != [] && b != []
    ensures a[0] == b[0]
  {
    assert a[0] in multiset(a) && b[0] in multiset(b);
    assert a[0] in b && b[0] in a;
    var k :| 0 <= k < |b| && b[k] == a[0];
    var m :| 0 <= m < |a| && a[m] == b[0];
    BeforeOrder(a[0], b[0], a[0]);
  }

  lemma TailsMatch(a: seq<Result>, b: seq<Result>)
    requires multiset(a) == multiset(b) && a != [] && b != [] && a[0] == b[0]
    ensures multiset(a[1..]) == multiset(b[1..])
  {
    assert a == [a[0]] + a[1..] && b == [b[0]] + b[1..];
    assert multiset(a[1..]) == multiset(a) - multiset{a[0]};
    assert multiset(b[1..]) == multiset(b) - multiset{b[0]};
  }

  /** One order: two strictly ordered arrangements of the same results are the same list. */
  lemma {:induction false} OrderIsUnique(a: seq<Result>, b: seq<Result>)
    requires StrictlyOrdered(a) && StrictlyOrdered(b) && multiset(a) == multiset(b)
    ensures a == b
    decreases |a|
  {
    hide Before;
    SameSize(a, b);
    if a != [] {
      HeadsAgree(a, b);
      TailsMatch(a, b);
      OrderIsUnique(a[1..], b[1..]);
      assert a == [a[0]] + a[1..] && b == [b[0]] + b[1..];
    }
  }

  // ---------- the profile ----------

  ghost predicate DistinctClaims(claims: seq<Claim>) {
    forall i, j :: 0 <= i < j < |claims| ==> claims[i].id != claims[j].id
  }

  lemma {:induction false} UsableIds(ctx: Context, claims: seq<Claim>)
    requires DistinctClaims(claims)
    ensures DistinctClaims(Usable(ctx, claims))
    ensures forall c :: c in Usable(ctx, claims) ==> c in claims && IsUsable(ctx, c)
  {
    if claims != [] {
      var rest := claims[1..];
      assert forall i :: 0 <= i < |rest| ==> rest[i] == claims[i + 1];
      UsableIds(ctx, rest);
      var u := Usable(ctx, rest);
      forall i | 0 <= i < |u| ensures u[i].id != claims[0].id {
        assert u[i] in u;
        var j :| 0 <= j < |rest| && rest[j] == u[i];
      }
      assert Usable(ctx, claims) == if IsUsable(ctx, claims[0]) then [claims[0]] + u else u;
    }
  }

  lemma {:induction false} DistinctUnderReorder(a: seq<Result>, b: seq<Result>)
    requires DistinctIds(a) && multiset(a) == multiset(b)
    ensures DistinctIds(b)
  {
    forall i, j | 0 <= i < j < |b| ensures b[i].id != b[j].id {
      if b[i].id == b[j].id {
        assert b[i] in multiset(b) && b[j] in multiset(b);
        assert b[i] in a && b[j] in a;
        var x :| 0 <= x < |a| && a[x] == b[i];
        var y :| 0 <= y < |a| && a[y] == b[j];
        assert b[i] == b[j];
        Twice(b, i, j);
        Once(a, x);
      }
    }
  }

  lemma Twice(s: seq<Result>, i: nat, j: nat)
    requires i < j < |s| && s[i] == s[j]
    ensures multiset(s)[s[i]] >= 2
  {
    assert s == s[..i] + [s[i]] + s[i + 1..j] + [s[j]] + s[j + 1..];
  }

  lemma Once(s: seq<Result>, x: nat)
    requires DistinctIds(s) && x < |s|
    ensures multiset(s)[s[x]] == 1
  {
    assert s == s[..x] + [s[x]] + s[x + 1..];
    assert s[x] !in s[..x] && s[x] !in s[x + 1..];
  }

  lemma StrictlyOrderedResults(ctx: Context, claims: seq<Claim>, rs: seq<Result>)
    requires DistinctClaims(claims) && Ordered(rs) && multiset(rs) == multiset(ResultsOf(ctx, Usable(ctx, claims)))
    ensures StrictlyOrdered(rs)
  {
    UsableIds(ctx, claims);
    var raw := ResultsOf(ctx, Usable(ctx, claims));
    assert DistinctIds(raw);
    DistinctUnderReorder(raw, rs);
    forall i, j | 0 <= i < j < |rs| ensures Before(rs[i], rs[j]) {
      BeforeOrder(rs[i], rs[j], rs[i]);
    }
  }

  /** With distinct claim ids the profile, and so its hash, does not depend on the order in which
      claims or rejections are read. */
  lemma ProfileIgnoresOrder(ctx: Context, claims: seq<Claim>, claims': seq<Claim>, rejections: seq<Rejection>,
                            rejections': seq<Rejection>, p: Profile, p': Profile)
    requires DistinctClaims(claims) && DistinctClaims(claims')
    requires multiset(claims) == multiset(claims') && multiset(rejections) == multiset(rejections')
    requires IsProfile(ctx, claims, rejections, p) && IsProfile(ctx, claims', rejections', p')
    ensures p == p'
  {
    CountsIgnoreOrder(ctx, claims, claims', rejections, rejections');
    ResultsIgnoreOrder(ctx, claims, claims', p.results, p'.results);
    SameElements(claims, claims');
  }

  lemma SameElements<T>(a: seq<T>, b: seq<T>)
    requires multiset(a) == multiset(b)
    ensures forall x :: x in a <==> x in b
  {
    forall x ensures x in a <==> x in b {
      assert x in multiset(a) <==> x in multiset(b);
    }
  }

  lemma CountsIgnoreOrder(ctx: Context, a: seq<Claim>, b: seq<Claim>, x: seq<Rejection>, y: seq<Rejection>)
    requires multiset(a) == multiset(b) && multiset(x) == multiset(y)
    ensures CountBy(a, DirectionKey(ctx)) == CountBy(b, DirectionKey(ctx))
    ensures CountBy(a, SideKey(ctx, false)) == CountBy(b, SideKey(ctx, false))
    ensures CountBy(a, SideKey(ctx, true)) == CountBy(b, SideKey(ctx, true))
    ensures CountBy(a, NotUsableKey(ctx)) == CountBy(b, NotUsableKey(ctx))
    ensures CountBy(x, RejectedKey(ctx)) == CountBy(y, RejectedKey(ctx))
    ensures |Mine(ctx, a)| == |Mine(ctx, b)| && |Reviewed(ctx, a)| == |Reviewed(ctx, b)|
  {
    CountByReordered(a, b, DirectionKey(ctx));
    CountByReordered(a, b, SideKey(ctx, false));
    CountByReordered(a, b, SideKey(ctx, true));
    CountByReordered(a, b, NotUsableKey(ctx));
    CountByReordered(x, y, RejectedKey(ctx));
    FilterReordered(a, b, c => IsMine(ctx, c));
    FilterReordered(a, b, c => IsReviewed(ctx, c));
    SameSize(Mine(ctx, a), Mine(ctx, b));
    SameSize(Reviewed(ctx, a), Reviewed(ctx, b));
  }

  lemma ResultsIgnoreOrder(ctx: Context, a: seq<Claim>, b: seq<Claim>, x: seq<Result>, y: seq<Result>)
    requires DistinctClaims(a) && DistinctClaims(b) && multiset(a) == multiset(b) && Ordered(x) && Ordered(y)
    requires multiset(x) == multiset(ResultsOf(ctx, Usable(ctx, a)))
    requires multiset(y) == multiset(ResultsOf(ctx, Usable(ctx, b)))
    ensures x == y
  {
    StrictlyOrderedResults(ctx, a, x);
    StrictlyOrderedResults(ctx, b, y);
    FilterReordered(a, b, c => IsUsable(ctx, c));
    ApplyReordered(Usable(ctx, a), Usable(ctx, b), c => ResultOf(ctx, c));
    OrderIsUnique(x, y);
  }

  // ---------- the counts add up ----------

  function Having<T>(s: seq<T>, key: T -> Option<string>): nat {
    if s == [] then 0 else Having(s[..|s| - 1], key) + (if key(s[|s| - 1]).Some? then 1 else 0)
  }

  lemma {:induction false} CountsTotal<T>(s: seq<T>, key: T -> Option<string>)
    ensures Total(CountBy(s, key)) == Having(s, key)
  {
    if s != [] {
      CountsTotal(s[..|s| - 1], key);
      var before, k := CountBy(s[..|s| - 1], key), key(s[|s| - 1]);
      if k.Some? { TotalOneMore(before, k.value); }
    }
  }

  lemma TotalOneMore(counts: map<string, nat>, k: string)
    ensures Total(OneMore(counts, k)) == Total(counts) + 1
  {
    hide Total;
    if k in counts {
      TotalUpdate(counts, k, counts[k] + 1);
    } else {
      TotalWithout(OneMore(counts, k), k);
      assert OneMore(counts, k) - {k} == counts;
    }
  }

  lemma {:induction false} FilterIsHaving<T>(s: seq<T>, keep: T -> bool, key: T -> Option<string>)
    requires forall x :: keep(x) <==> key(x).Some?
    ensures |Filter(keep, s)| == Having(s, key)
  {
    if s != [] {
      var n := |s| - 1;
      FilterIsHaving(s[..n], keep, key);
      assert s == s[..n] + [s[n]];
      FilterConcat(keep, s[..n], [s[n]]);
    }
  }

  lemma {:induction false} ReviewedSplits(ctx: Context, claims: seq<Claim>)
    ensures |Reviewed(ctx, claims)| == |Usable(ctx, claims)| + Having(claims, NotUsableKey(ctx))
  {
    if claims != [] {
      var n := |claims| - 1;
      ReviewedSplits(ctx, claims[..n]);
      assert claims == claims[..n] + [claims[n]];
      FilterConcat(c => IsReviewed(ctx, c), claims[..n], [claims[n]]);
      FilterConcat(c => IsUsable(ctx, c), claims[..n], [claims[n]]);
    }
  }

  /** Every own claim is a result, or reviewed and not usable, or awaiting review. */
  lemma OwnClaimsAccountedFor(ctx: Context, claims: seq<Claim>, rejections: seq<Rejection>, p: Profile)
    requires IsProfile(ctx, claims, rejections, p)
    ensures |Mine(ctx, claims)| == |p.results| + Total(p.notUsable) + p.awaitingReview
  {
    CountsTotal(claims, NotUsableKey(ctx));
    ReviewedSplits(ctx, claims);
    SameSize(p.results, ResultsOf(ctx, Usable(ctx, claims)));
  }

  function Unmarked(rs: seq<Result>): seq<Result> { Filter((r: Result) => r.sameWorkAs.None?, rs) }

  lemma {:induction false} UnmarkedAreCounted(ctx: Context, claims: seq<Claim>)
    ensures |Unmarked(ResultsOf(ctx, Usable(ctx, claims)))| == Having(claims, DirectionKey(ctx))
  {
    if claims != [] {
      var n, last := |claims| - 1, claims[|claims| - 1];
      UnmarkedAreCounted(ctx, claims[..n]);
      assert claims == claims[..n] + [last];
      FilterConcat(c => IsUsable(ctx, c), claims[..n], [last]);
      var before, more := Usable(ctx, claims[..n]), Usable(ctx, [last]);
      assert ResultsOf(ctx, before + more) == ResultsOf(ctx, before) + ResultsOf(ctx, more);
      FilterConcat((r: Result) => r.sameWorkAs.None?, ResultsOf(ctx, before), ResultsOf(ctx, more));
      OneUnmarked(ctx, last);
    }
  }

  lemma OneUnmarked(ctx: Context, c: Claim)
    ensures |Unmarked(ResultsOf(ctx, Usable(ctx, [c])))| == if DirectionKey(ctx)(c).Some? then 1 else 0
  {
    FilterOne(x => IsUsable(ctx, x), c);
    assert ResultsOf(ctx, [c]) == [ResultOf(ctx, c)];
    FilterOne((r: Result) => r.sameWorkAs.None?, ResultOf(ctx, c));
  }

  /** One study is one count: the direction counts add up to the results not marked as a second
      copy of a work. */
  lemma DirectionsCountWorksOnce(ctx: Context, claims: seq<Claim>, rejections: seq<Rejection>, p: Profile)
    requires IsProfile(ctx, claims, rejections, p)
    ensures Total(p.direction) == |Unmarked(p.results)|
  {
    CountsTotal(claims, DirectionKey(ctx));
    UnmarkedAreCounted(ctx, claims);
    FilterReordered(p.results, ResultsOf(ctx, Usable(ctx, claims)), (r: Result) => r.sameWorkAs.None?);
    SameSize(Unmarked(p.results), Unmarked(ResultsOf(ctx, Usable(ctx, claims))));
  }

  /** A usable claim from a second copy of a work is shown and changes no count, class or source; a
      profile that had no result now has one. */
  lemma SecondCopyCountsNothing(ctx: Context, claims: seq<Claim>, c: Claim, rejections: seq<Rejection>, p: Profile,
                                p': Profile)
    requires IsUsable(ctx, c) && IsSecondCopy(ctx, c)
    requires IsProfile(ctx, claims, rejections, p) && IsProfile(ctx, claims + [c], rejections, p')
    ensures p'.(results := p.results, state := p.state) == p && p'.state == None
    ensures multiset(p'.results) == multiset(p.results) + multiset{ResultOf(ctx, c)}
    ensures ResultOf(ctx, c).sameWorkAs.Some?
  {
    SecondCopyKeys(ctx, claims, c);
    SecondCopyResults(ctx, claims, c);
    assert SourcesOf(ctx, claims + [c]) == SourcesOf(ctx, claims);
    assert SamplesOf(ctx, claims + [c]) == SamplesOf(ctx, claims);
  }

  lemma SecondCopyKeys(ctx: Context, claims: seq<Claim>, c: Claim)
    requires IsUsable(ctx, c) && IsSecondCopy(ctx, c)
    ensures CountBy(claims + [c], DirectionKey(ctx)) == CountBy(claims, DirectionKey(ctx))
    ensures CountBy(claims + [c], SideKey(ctx, false)) == CountBy(claims, SideKey(ctx, false))
    ensures CountBy(claims + [c], SideKey(ctx, true)) == CountBy(claims, SideKey(ctx, true))
    ensures CountBy(claims + [c], NotUsableKey(ctx)) == CountBy(claims, NotUsableKey(ctx))
    ensures |Mine(ctx, claims + [c])| - |Reviewed(ctx, claims + [c])| == |Mine(ctx, claims)| - |Reviewed(ctx, claims)|
  {
    assert (claims + [c])[..|claims|] == claims;
    FilterConcat(x => IsMine(ctx, x), claims, [c]);
    FilterConcat(x => IsReviewed(ctx, x), claims, [c]);
  }

  lemma SecondCopyResults(ctx: Context, claims: seq<Claim>, c: Claim)
    requires IsUsable(ctx, c)
    ensures ResultsOf(ctx, Usable(ctx, claims + [c])) == ResultsOf(ctx, Usable(ctx, claims)) + [ResultOf(ctx, c)]
  {
    FilterConcat(x => IsUsable(ctx, x), claims, [c]);
    FilterOne(x => IsUsable(ctx, x), c);
  }
}
