/** What a profile says in terms of the claims alone: how many claims stand behind each figure, and
    which claim stands behind each result. */
module EvidenceCounts {
  import opened Seqs
  import opened Sums
  import opened Evidence
  import opened EvidenceLaws

  // ---------- counting places ----------

  function Places<T>(s: seq<T>, which: T -> bool): set<nat> { set i: nat | i < |s| && which(s[i]) }

  /** How many places of a list hold such an element. */
  function HowMany<T>(s: seq<T>, which: T -> bool): nat { |Places(s, which)| }

  lemma HowManySnoc<T>(s: seq<T>, x: T, which: T -> bool)
    ensures HowMany(s + [x], which) == HowMany(s, which) + if which(x) then 1 else 0
  {
    var longer := s + [x];
    if which(x) {
      assert Places(longer, which) == Places(s, which) + {|s|};
    } else {
      assert Places(longer, which) == Places(s, which);
    }
  }

  lemma HowManyNone<T>(which: T -> bool)
    ensures HowMany([], which) == 0
  {}

  lemma HowManySame<T>(s: seq<T>, a: T -> bool, b: T -> bool)
    requires forall x :: x in s ==> a(x) == b(x)
    ensures HowMany(s, a) == HowMany(s, b)
  {
    assert Places(s, a) == Places(s, b);
  }

  /** A figure of a profile; what has no entry counts nothing. */
  function Figure(counts: map<string, nat>, k: string): nat { if k in counts then counts[k] else 0 }

  ghost predicate Tallies<T>(counts: map<string, nat>, s: seq<T>, falls: (T, string) -> bool) {
    forall k :: Figure(counts, k) == HowMany(s, x => falls(x, k)) && (k in counts ==> counts[k] > 0)
  }

  lemma {:induction false} CountByPlaces<T>(s: seq<T>, key: T -> Option<string>, k: string)
    ensures Figure(CountBy(s, key), k) == HowMany(s, x => key(x) == Some(k))
    ensures k in CountBy(s, key) ==> CountBy(s, key)[k] > 0
  {
    if s == [] {
      HowManyNone((x: T) => key(x) == Some(k));
    } else {
      var n := |s| - 1;
      CountByPlaces(s[..n], key, k);
      assert s == s[..n] + [s[n]];
      HowManySnoc(s[..n], s[n], x => key(x) == Some(k));
    }
  }

  lemma CountByTallies<T>(s: seq<T>, key: T -> Option<string>, falls: (T, string) -> bool)
    requires forall x, k :: x in s ==> (key(x) == Some(k) <==> falls(x, k))
    ensures Tallies(CountBy(s, key), s, falls)
  {
    forall k
      ensures Figure(CountBy(s, key), k) == HowMany(s, x => falls(x, k))
      ensures k in CountBy(s, key) ==> CountBy(s, key)[k] > 0
    {
      CountByPlaces(s, key, k);
      HowManySame(s, x => key(x) == Some(k), x => falls(x, k));
    }
  }

  // ---------- what a claim is, in its own fields ----------

  predicate Awaits(ctx: Context, c: Claim) { c.question == ctx.question.id && c.id !in ctx.reviews }

  predicate JudgedAs(ctx: Context, c: Claim, verdict: string) {
    c.question == ctx.question.id && c.id in ctx.reviews && ctx.reviews[c.id] == verdict
  }

  /** The source as the registry of works names it. */
  function SourceName(c: Claim): string { match c.source case Some(s) => s case None => "None" }

  predicate Supported(ctx: Context, c: Claim) { JudgedAs(ctx, c, "SUPPORTED") }

  predicate CountsOnce(ctx: Context, c: Claim) { Supported(ctx, c) && SourceName(c) !in ctx.workOf }

  predicate OfClass(c: Claim, class_: string) {
    match c.sourceClass case Some(named) => named == class_ case None => class_ == ""
  }

  function Stands(ctx: Context): (Claim, string) -> bool {
    (c: Claim, stance: string) =>
      CountsOnce(ctx, c) && (match c.stance case Some(said) => said == stance case None => stance == "")
  }

  predicate Says(c: Claim, stance: string) { c.stance.Some? && c.stance.value == stance }

  function Contradicts(ctx: Context): (Claim, string) -> bool {
    (c: Claim, class_: string) => CountsOnce(ctx, c) && Says(c, "CONTRADICTS") && OfClass(c, class_)
  }

  function SpeaksFor(ctx: Context): (Claim, string) -> bool {
    (c: Claim, class_: string) =>
      CountsOnce(ctx, c) && !Says(c, "CONTRADICTS") && !Says(c, "QUALIFIES") && OfClass(c, class_)
  }

  function SetAside(ctx: Context): (Claim, string) -> bool {
    (c: Claim, verdict: string) => JudgedAs(ctx, c, verdict) && verdict != "SUPPORTED"
  }

  function RefusedFor(ctx: Context): (Rejection, string) -> bool {
    (r: Rejection, reason: string) =>
      r.question == ctx.question.id && (if r.failure == "" then reason == "?" else reason == r.failure)
  }

  // ---------- the figures ----------

  lemma StancesTally(ctx: Context, claims: seq<Claim>)
    ensures Tallies(CountBy(claims, DirectionKey(ctx)), claims, Stands(ctx))
  {
    CountByTallies(claims, DirectionKey(ctx), Stands(ctx));
  }

  lemma CountedOnce(ctx: Context, c: Claim)
    ensures IsCounted(ctx, c) <==> CountsOnce(ctx, c)
    ensures Says(c, "CONTRADICTS") <==> Text(c.stance) == AGAINST
    ensures Says(c, "QUALIFIES") <==> Text(c.stance) == QUALIFIES
    ensures !(Says(c, "CONTRADICTS") && Says(c, "QUALIFIES"))
  {
    assert "None"[0] != "QUALIFIES"[0] && "None"[0] != "CONTRADICTS"[0] && "QUALIFIES"[0] != "CONTRADICTS"[0];
  }

  lemma SideOf(ctx: Context, c: Claim, k: string)
    ensures SideKey(ctx, true)(c) == Some(k) <==> Contradicts(ctx)(c, k)
    ensures SideKey(ctx, false)(c) == Some(k) <==> SpeaksFor(ctx)(c, k)
  {
    CountedOnce(ctx, c);
    hide IsCounted, CountsOnce, Says, Text;
    assert OfClass(c, k) <==> OrEmpty(c.sourceClass) == k;
    var against, for_ := SideKey(ctx, true)(c), SideKey(ctx, false)(c);
    assert against.Some? ==> against.value == OrEmpty(c.sourceClass);
    assert for_.Some? ==> for_.value == OrEmpty(c.sourceClass);
  }

  lemma SidesTally(ctx: Context, claims: seq<Claim>)
    ensures Tallies(CountBy(claims, SideKey(ctx, true)), claims, Contradicts(ctx))
    ensures Tallies(CountBy(claims, SideKey(ctx, false)), claims, SpeaksFor(ctx))
  {
    forall c: Claim, k
      ensures SideKey(ctx, true)(c) == Some(k) <==> Contradicts(ctx)(c, k)
      ensures SideKey(ctx, false)(c) == Some(k) <==> SpeaksFor(ctx)(c, k)
    {
      SideOf(ctx, c, k);
    }
    hide SideKey, Contradicts, SpeaksFor;
    CountByTallies(claims, SideKey(ctx, true), Contradicts(ctx));
    CountByTallies(claims, SideKey(ctx, false), SpeaksFor(ctx));
  }

  lemma VerdictsTally(ctx: Context, claims: seq<Claim>, rejections: seq<Rejection>)
    ensures Tallies(CountBy(claims, NotUsableKey(ctx)), claims, SetAside(ctx))
    ensures Tallies(CountBy(rejections, RejectedKey(ctx)), rejections, RefusedFor(ctx))
  {
    CountByTallies(claims, NotUsableKey(ctx), SetAside(ctx));
    CountByTallies(rejections, RejectedKey(ctx), RefusedFor(ctx));
  }

  function Waiting(ctx: Context): Claim -> bool { c => Awaits(ctx, c) }

  /** Every figure of a profile is the number of claims, or rejections, it is named after. */
  lemma EachFigureCounts(ctx: Context, claims: seq<Claim>, rejections: seq<Rejection>, p: Profile)
    requires IsProfile(ctx, claims, rejections, p)
    ensures Tallies(p.direction, claims, Stands(ctx))
    ensures Tallies(p.againstClasses, claims, Contradicts(ctx)) && Tallies(p.forClasses, claims, SpeaksFor(ctx))
    ensures Tallies(p.notUsable, claims, SetAside(ctx)) && Tallies(p.rejected, rejections, RefusedFor(ctx))
    ensures p.awaitingReview == HowMany(claims, Waiting(ctx))
  {
    StancesTally(ctx, claims);
    SidesTally(ctx, claims);
    VerdictsTally(ctx, claims, rejections);
    AwaitingPlaces(ctx, claims);
    hide Tallies;
  }

  lemma {:induction false} AwaitingPlaces(ctx: Context, claims: seq<Claim>)
    ensures |Mine(ctx, claims)| - |Reviewed(ctx, claims)| == HowMany(claims, Waiting(ctx))
  {
    if claims == [] {
      HowManyNone(Waiting(ctx));
    } else {
      var n, last := |claims| - 1, claims[|claims| - 1];
      AwaitingPlaces(ctx, claims[..n]);
      assert claims == claims[..n] + [last];
      HowManySnoc(claims[..n], last, Waiting(ctx));
      FilterConcat(c => IsMine(ctx, c), claims[..n], [last]);
      FilterConcat(c => IsReviewed(ctx, c), claims[..n], [last]);
      FilterOne(c => IsMine(ctx, c), last);
      FilterOne(c => IsReviewed(ctx, c), last);
    }
  }

  // ---------- the two sides against the directions ----------

  function WithStance(ctx: Context, stance: string): Claim -> bool { c => Stands(ctx)(c, stance) }

  /** A counted claim falls on one side, unless it qualifies. */
  lemma OneSide(ctx: Context, c: Claim)
    ensures SideKey(ctx, true)(c).Some? <==> WithStance(ctx, "CONTRADICTS")(c)
    ensures DirectionKey(ctx)(c).Some? <==>
      SideKey(ctx, true)(c).Some? || SideKey(ctx, false)(c).Some? || WithStance(ctx, "QUALIFIES")(c)
    ensures !(SideKey(ctx, true)(c).Some? && SideKey(ctx, false)(c).Some?)
    ensures WithStance(ctx, "QUALIFIES")(c) ==> SideKey(ctx, true)(c).None? && SideKey(ctx, false)(c).None?
  {
    assert WithStance(ctx, "CONTRADICTS")(c) == Stands(ctx)(c, "CONTRADICTS");
    assert WithStance(ctx, "QUALIFIES")(c) == Stands(ctx)(c, "QUALIFIES");
    assert "QUALIFIES"[0] != "CONTRADICTS"[0] && "None"[0] != "QUALIFIES"[0] && "None"[0] != "CONTRADICTS"[0];
  }

  lemma {:induction false} SidesTotal(ctx: Context, claims: seq<Claim>)
    ensures Total(CountBy(claims, SideKey(ctx, true))) == HowMany(claims, WithStance(ctx, "CONTRADICTS"))
    ensures Total(CountBy(claims, SideKey(ctx, true))) + Total(CountBy(claims, SideKey(ctx, false)))
         == Total(CountBy(claims, DirectionKey(ctx))) - HowMany(claims, WithStance(ctx, "QUALIFIES"))
  {
    if claims == [] {
      HowManyNone(WithStance(ctx, "CONTRADICTS"));
      HowManyNone(WithStance(ctx, "QUALIFIES"));
    } else {
      var n, last := |claims| - 1, claims[|claims| - 1];
      SidesTotal(ctx, claims[..n]);
      assert claims == claims[..n] + [last];
      OneSide(ctx, last);
      hide SideKey, DirectionKey, WithStance, HowMany, Total, CountBy;
      HowManySnoc(claims[..n], last, WithStance(ctx, "CONTRADICTS"));
      HowManySnoc(claims[..n], last, WithStance(ctx, "QUALIFIES"));
      TotalSnoc(claims[..n], last, SideKey(ctx, true));
      TotalSnoc(claims[..n], last, SideKey(ctx, false));
      TotalSnoc(claims[..n], last, DirectionKey(ctx));
    }
  }

  lemma TotalSnoc<T>(s: seq<T>, x: T, key: T -> Option<string>)
    ensures Total(CountBy(s + [x], key)) == Total(CountBy(s, key)) + if key(x).Some? then 1 else 0
  {
    assert (s + [x])[..|s|] == s;
    if key(x).Some? { TotalOneMore(CountBy(s, key), key(x).value); }
  }

  /** Against is what contradicts, for is all the rest but what qualifies: the claims against, over all
      classes, are those whose stance is CONTRADICTS, and both sides together are all directions less
      those that qualify. */
  lemma SidesAreDirections(ctx: Context, claims: seq<Claim>, rejections: seq<Rejection>, p: Profile)
    requires IsProfile(ctx, claims, rejections, p)
    ensures Total(p.againstClasses) == Figure(p.direction, "CONTRADICTS")
    ensures Total(p.forClasses) + Total(p.againstClasses) == Total(p.direction) - Figure(p.direction, "QUALIFIES")
  {
    SidesTotal(ctx, claims);
    StancesTally(ctx, claims);
    HowManySame(claims, c => Stands(ctx)(c, "CONTRADICTS"), WithStance(ctx, "CONTRADICTS"));
    HowManySame(claims, c => Stands(ctx)(c, "QUALIFIES"), WithStance(ctx, "QUALIFIES"));
    hide Total, HowMany, Stands, WithStance;
  }

  /** The figures of two profiles are the same but for one more under `at`. */
  ghost predicate OneMoreUnder(before: map<string, nat>, after: map<string, nat>, at: Option<string>) {
    forall k :: Figure(after, k) == Figure(before, k) + if at == Some(k) then 1 else 0
  }

  lemma HowManyInsert<T>(s: seq<T>, at: nat, x: T, which: T -> bool)
    requires at <= |s|
    ensures HowMany(s[..at] + [x] + s[at..], which) == HowMany(s, which) + if which(x) then 1 else 0
    decreases |s| - at
  {
    if at == |s| {
      assert s[..at] + [x] + s[at..] == s + [x];
      HowManySnoc(s, x, which);
    } else {
      var n := |s| - 1;
      var front, last := s[..n], s[n];
      HowManyInsert(front, at, x, which);
      assert s == front + [last];
      assert s[..at] + [x] + s[at..] == (front[..at] + [x] + front[at..]) + [last];
      HowManySnoc(front[..at] + [x] + front[at..], last, which);
      HowManySnoc(front, last, which);
    }
  }

  lemma TalliesInsert<T>(before: map<string, nat>, after: map<string, nat>, s: seq<T>, i: nat, x: T,
                         falls: (T, string) -> bool, at: Option<string>)
    requires i <= |s| && Tallies(before, s, falls) && Tallies(after, s[..i] + [x] + s[i..], falls)
    requires forall k :: falls(x, k) <==> at == Some(k)
    ensures OneMoreUnder(before, after, at)
  {
    forall k ensures Figure(after, k) == Figure(before, k) + if at == Some(k) then 1 else 0 {
      HowManyInsert(s, i, x, y => falls(y, k));
      hide HowMany;
    }
  }

  function ClassName(c: Claim): string { match c.sourceClass case Some(named) => named case None => "" }

  /** One more counted claim, wherever it stands, raises its own side, in its own class, by one and leaves the other side and
      everything about rejections as it was; one that qualifies raises neither side. */
  lemma OneMoreClaim(ctx: Context, claims: seq<Claim>, i: nat, c: Claim, rejections: seq<Rejection>, p: Profile,
                     p': Profile)
    requires i <= |claims| && CountsOnce(ctx, c) && IsProfile(ctx, claims, rejections, p)
    requires IsProfile(ctx, claims[..i] + [c] + claims[i..], rejections, p')
    ensures OneMoreUnder(p.againstClasses, p'.againstClasses,
                         if Says(c, "CONTRADICTS") then Some(ClassName(c)) else None)
    ensures OneMoreUnder(p.forClasses, p'.forClasses,
                         if Says(c, "CONTRADICTS") || Says(c, "QUALIFIES") then None else Some(ClassName(c)))
    ensures p'.rejected == p.rejected
  {
    var more := claims[..i] + [c] + claims[i..];
    EachFigureCounts(ctx, claims, rejections, p);
    EachFigureCounts(ctx, more, rejections, p');
    RejectedAlone(ctx, claims, more, rejections, p, p');
    hide *;
    AgainstInsert(ctx, claims, i, c, p.againstClasses, p'.againstClasses);
    ForInsert(ctx, claims, i, c, p.forClasses, p'.forClasses);
  }

  lemma AgainstInsert(ctx: Context, claims: seq<Claim>, i: nat, c: Claim, before: map<string, nat>,
                      after: map<string, nat>)
    requires i <= |claims| && CountsOnce(ctx, c) && Tallies(before, claims, Contradicts(ctx))
    requires Tallies(after, claims[..i] + [c] + claims[i..], Contradicts(ctx))
    ensures OneMoreUnder(before, after, if Says(c, "CONTRADICTS") then Some(ClassName(c)) else None)
  {
    hide Tallies, CountsOnce;
    TalliesInsert(before, after, claims, i, c, Contradicts(ctx),
                  if Says(c, "CONTRADICTS") then Some(ClassName(c)) else None);
  }

  lemma ForInsert(ctx: Context, claims: seq<Claim>, i: nat, c: Claim, before: map<string, nat>,
                  after: map<string, nat>)
    requires i <= |claims| && CountsOnce(ctx, c) && Tallies(before, claims, SpeaksFor(ctx))
    requires Tallies(after, claims[..i] + [c] + claims[i..], SpeaksFor(ctx))
    ensures OneMoreUnder(before, after,
                         if Says(c, "CONTRADICTS") || Says(c, "QUALIFIES") then None else Some(ClassName(c)))
  {
    hide Tallies, CountsOnce;
    TalliesInsert(before, after, claims, i, c, SpeaksFor(ctx),
                  if Says(c, "CONTRADICTS") || Says(c, "QUALIFIES") then None else Some(ClassName(c)));
  }

  lemma RejectedAlone(ctx: Context, a: seq<Claim>, b: seq<Claim>, rejections: seq<Rejection>, p: Profile, p': Profile)
    requires IsProfile(ctx, a, rejections, p) && IsProfile(ctx, b, rejections, p')
    ensures p'.rejected == p.rejected
  {}

  // ---------- the results and the rest ----------

  /** The result row carries the claim's own record, the role declared for its class, the fields kept
      for this kind of question, and the work its source is a second copy of. */
  predicate Shows(ctx: Context, c: Claim, r: Result) {
    && (r.id, r.source, r.sourceClass, r.stance) == (c.id, c.source, c.sourceClass, c.stance)
    && (r.claim, r.quote, r.unconverted) == (c.claim, c.quote, c.unconverted)
    && r.role == RoleOf(ctx, match c.sourceClass case Some(named) => named case None => "None")
    && r.sameWorkAs == (if SourceName(c) in ctx.workOf then Some(ctx.workOf[SourceName(c)]) else None)
    && r.fields.Keys == c.fields.Keys * FieldsOfKind(ctx.question.kind)
    && (forall f :: f in r.fields ==> r.fields[f] == c.fields[f])
  }

  function RoleOf(ctx: Context, class_: string): string { if class_ in ctx.roles then ctx.roles[class_] else "" }

  lemma ShowsIsResult(ctx: Context, c: Claim, r: Result)
    ensures Shows(ctx, c, r) <==> r == ResultOf(ctx, c)
  {
    var own := ResultOf(ctx, c);
    if Shows(ctx, c, r) {
      assert r.fields == own.fields;
    }
  }

  function ShownBy(ctx: Context, r: Result): Claim -> bool { c => Supported(ctx, c) && Shows(ctx, c, r) }

  lemma {:induction false} ResultsArePlaces(ctx: Context, claims: seq<Claim>, r: Result)
    ensures multiset(ResultsOf(ctx, Usable(ctx, claims)))[r] == HowMany(claims, ShownBy(ctx, r))
  {
    if claims == [] {
      HowManyNone(ShownBy(ctx, r));
      assert ResultsOf(ctx, []) == [];
    } else {
      var n, last := |claims| - 1, claims[|claims| - 1];
      ResultsArePlaces(ctx, claims[..n], r);
      assert claims == claims[..n] + [last];
      HowManySnoc(claims[..n], last, ShownBy(ctx, r));
      ShowsIsResult(ctx, last, r);
      if IsUsable(ctx, last) {
        SecondCopyResults(ctx, claims[..n], last);
      } else {
        FilterConcat(x => IsUsable(ctx, x), claims[..n], [last]);
        FilterOne(x => IsUsable(ctx, x), last);
        assert Usable(ctx, claims[..n]) + [] == Usable(ctx, claims[..n]);
      }
    }
  }

  /** Each result stands for as many supported claims as the list shows it times, second copies included,
      and for nothing else. */
  lemma EachResultIsAClaim(ctx: Context, claims: seq<Claim>, rejections: seq<Rejection>, p: Profile, r: Result)
    requires IsProfile(ctx, claims, rejections, p)
    ensures multiset(p.results)[r] == HowMany(claims, ShownBy(ctx, r))
  {
    ResultsArePlaces(ctx, claims, r);
  }

  /** Sources and samples are those of the claims counted once; a question without a supported claim says
      so and nothing else does; a claim nobody has read blocks the profile. */
  lemma TheRestOfAProfile(ctx: Context, claims: seq<Claim>, rejections: seq<Rejection>, p: Profile)
    requires IsProfile(ctx, claims, rejections, p)
    ensures forall x :: x in p.sources <==>
      x != "" && exists c :: c in claims && CountsOnce(ctx, c) && c.source == Some(x)
    ensures forall x :: x in p.samples <==> x != "" && exists c :: c in claims && CountsOnce(ctx, c) && c.sample == x
    ensures p.state == Some("NO_VERIFIED_CLAIM") || p.state == None
    ensures p.state == None <==> exists c :: c in claims && Supported(ctx, c)
    ensures p.provisional <==> ctx.provisional || exists c :: c in claims && Awaits(ctx, c)
    ensures forall b :: b in p.blocking <==>
      b in ctx.blocking || (b == "awaiting_review" && exists c :: c in claims && Awaits(ctx, c))
    ensures p.examined == ctx.examined && p.workGroups == ctx.workGroups
  {
    SourcesAre(ctx, claims);
    AwaitingPlaces(ctx, claims);
    SomePlace(claims, Waiting(ctx));
    SomeResult(ctx, claims, p.results);
  }

  lemma SomePlace<T>(s: seq<T>, which: T -> bool)
    ensures HowMany(s, which) > 0 <==> exists x :: x in s && which(x)
  {
    if x :| x in s && which(x) {
      var i: nat :| i < |s| && s[i] == x;
      assert i in Places(s, which);
    }
    if HowMany(s, which) > 0 {
      var i :| i in Places(s, which);
      assert s[i] in s;
    }
  }

  lemma SourcesAre(ctx: Context, claims: seq<Claim>)
    ensures forall x :: x in SourcesOf(ctx, claims) <==>
      x != "" && exists c :: c in claims && CountsOnce(ctx, c) && c.source == Some(x)
    ensures forall x :: x in SamplesOf(ctx, claims) <==>
      x != "" && exists c :: c in claims && CountsOnce(ctx, c) && c.sample == x
  {}

  lemma SomeResult(ctx: Context, claims: seq<Claim>, results: seq<Result>)
    requires multiset(results) == multiset(ResultsOf(ctx, Usable(ctx, claims)))
    ensures results != [] <==> exists c :: c in claims && Supported(ctx, c)
  {
    SameSize(results, ResultsOf(ctx, Usable(ctx, claims)));
    FilterHas(c => IsUsable(ctx, c), claims);
  }

  lemma {:induction false} FilterHas<T>(keep: T -> bool, s: seq<T>)
    ensures Filter(keep, s) != [] <==> exists x :: x in s && keep(x)
  {
    if s != [] {
      FilterHas(keep, s[1..]);
      assert forall x :: x in s <==> x == s[0] || x in s[1..];
    }
  }
}
