/** `claimstone/evidence.py`: one question's evidence profile. Dictionaries in, one dictionary out. */
module Evidence {
  import opened Seqs

  /** Absent fields read as Python's `str(None)`. */
  datatype Claim = Claim(id: string, question: string, source: Option<string>, sourceClass: Option<string>,
                         stance: Option<string>, claim: Option<string>, quote: Option<string>, sample: string,
                         unconverted: string, fields: map<string, string>)
  datatype Rejection = Rejection(question: string, failure: string)

  /** A result row: who said it, what they said, on what quote, which fields could not be converted, and
      whether it is a second copy of a work. */
  datatype Result = Result(id: string, source: Option<string>, sourceClass: Option<string>, stance: Option<string>,
                           claim: Option<string>, quote: Option<string>, role: string, unconverted: string,
                           fields: map<string, string>, sameWorkAs: Option<string>)

  datatype Question = Question(id: string, kind: string)

  /** Everything a profile is built from besides the claims and rejections. */
  datatype Context = Context(question: Question, reviews: map<string, string>, roles: map<string, string>,
                             workOf: map<string, string>, workGroups: seq<string>, examined: nat, provisional: bool,
                             blocking: set<string>)

  datatype Profile = Profile(results: seq<Result>, state: Option<string>, direction: map<string, nat>,
                             forClasses: map<string, nat>, againstClasses: map<string, nat>,
                             rejected: map<string, nat>, samples: set<string>, sources: set<string>,
                             examined: nat, awaitingReview: nat, notUsable: map<string, nat>,
                             workGroups: seq<string>, provisional: bool, blocking: set<string>)

  const NO_VERIFIED_CLAIM := "NO_VERIFIED_CLAIM"
  const AWAITING_REVIEW := "awaiting_review"
  const USABLE_REVIEW := "SUPPORTED"
  const AGAINST := "CONTRADICTS"
  const QUALIFIES := "QUALIFIES"

  function FieldsOfKind(kind: string): set<string> {
    if kind == "effect" then
      {"estimate", "estimate_scale", "estimate_bound", "estimate_as_written", "uncertainty_as_written", "uncertainty",
       "uncertainty_bracketed", "horizon_as_written", "sample", "design", "dependence"}
    else if kind == "heterogeneity" then
      {"moderator", "high_side", "low_side", "contrast_as_written", "contrast_sides", "contrast_scale",
       "contrast_uncertainty_as_written", "prespecified"}
    else if kind == "method" then {"support_type"}
    else {}
  }

  function Text(field: Option<string>): string { if field.Some? then field.value else "None" }
  function OrEmpty(field: Option<string>): string { if field.Some? then field.value else "" }

  // ---------- which claims count ----------

  predicate IsMine(ctx: Context, c: Claim) { c.question == ctx.question.id }
  predicate IsReviewed(ctx: Context, c: Claim) { IsMine(ctx, c) && c.id in ctx.reviews }
  predicate IsUsable(ctx: Context, c: Claim) { IsReviewed(ctx, c) && ctx.reviews[c.id] == USABLE_REVIEW }
  predicate IsSecondCopy(ctx: Context, c: Claim) { Text(c.source) in ctx.workOf }
  predicate IsCounted(ctx: Context, c: Claim) { IsUsable(ctx, c) && !IsSecondCopy(ctx, c) }

  function ResultOf(ctx: Context, c: Claim): Result {
    Result(c.id, c.source, c.sourceClass, c.stance, c.claim, c.quote,
           if Text(c.sourceClass) in ctx.roles then ctx.roles[Text(c.sourceClass)] else "", c.unconverted,
           map f | f in c.fields && f in FieldsOfKind(ctx.question.kind) :: c.fields[f],
           if IsSecondCopy(ctx, c) then Some(ctx.workOf[Text(c.source)]) else None)
  }

  // ---------- counting ----------

  /** How many elements fall under each key; elements without a key are not counted. */
  function CountBy<T>(s: seq<T>, key: T -> Option<string>): map<string, nat> {
    if s == [] then map[]
    else
      var before, k := CountBy(s[..|s| - 1], key), key(s[|s| - 1]);
      if k.None? then before else OneMore(before, k.value)
  }

  function OneMore(counts: map<string, nat>, k: string): map<string, nat> {
    counts[k := (if k in counts then counts[k] else 0) + 1]
  }

  method CountEach<T>(s: seq<T>, key: T -> Option<string>) returns (counts: map<string, nat>)
    ensures counts == CountBy(s, key)
  {
    counts := map[];
    for i := 0 to |s|
      invariant counts == CountBy(s[..i], key)
    {
      assert s[..i + 1][..i] == s[..i];
      var k := key(s[i]);
      if k.Some? {
        counts := counts[k.value := (if k.value in counts then counts[k.value] else 0) + 1];
      }
    }
    assert s[..|s|] == s;
  }

  function DirectionKey(ctx: Context): Claim -> Option<string> {
    (c: Claim) => if IsCounted(ctx, c) then Some(OrEmpty(c.stance)) else None
  }

  /** A claim that qualifies the effect counts on neither side. */
  function SideKey(ctx: Context, against: bool): Claim -> Option<string> {
    (c: Claim) =>
      if IsCounted(ctx, c) && Text(c.stance) != QUALIFIES && (Text(c.stance) == AGAINST) == against
      then Some(OrEmpty(c.sourceClass)) else None
  }

  function NotUsableKey(ctx: Context): Claim -> Option<string> {
    (c: Claim) => if IsReviewed(ctx, c) && !IsUsable(ctx, c) then Some(ctx.reviews[c.id]) else None
  }

  function RejectedKey(ctx: Context): Rejection -> Option<string> {
    (r: Rejection) =>
      if r.question != ctx.question.id then None else Some(if r.failure != "" then r.failure else "?")
  }

  method CountSides(ctx: Context, claims: seq<Claim>) returns (yes: map<string, nat>, no: map<string, nat>)
    ensures yes == CountBy(claims, SideKey(ctx, false)) && no == CountBy(claims, SideKey(ctx, true))
  {
    yes, no := map[], map[];
    for i := 0 to |claims|
      invariant yes == CountBy(claims[..i], SideKey(ctx, false)) && no == CountBy(claims[..i], SideKey(ctx, true))
    {
      assert claims[..i + 1][..i] == claims[..i];
      var c := claims[i];
      if !IsCounted(ctx, c) || Text(c.stance) == QUALIFIES {
        continue;
      }
      if Text(c.stance) == AGAINST {
        no := OneMore(no, OrEmpty(c.sourceClass));
      } else {
        yes := OneMore(yes, OrEmpty(c.sourceClass));
      }
    }
    assert claims[..|claims|] == claims;
  }

  // ---------- order ----------

  predicate Less(a: string, b: string) {
    b != "" && (a == "" || a[0] < b[0] || (a[0] == b[0] && Less(a[1..], b[1..])))
  }

  predicate Before(a: Result, b: Result) {
    Less(Text(a.source), Text(b.source)) || (Text(a.source) == Text(b.source) && Less(a.id, b.id))
  }

  ghost predicate Ordered(rs: seq<Result>) {
    forall i, j :: 0 <= i < j < |rs| ==> !Before(rs[j], rs[i])
  }

  method Insert(rs: seq<Result>, r: Result) returns (longer: seq<Result>)
    requires Ordered(rs)
    ensures Ordered(longer) && multiset(longer) == multiset(rs) + multiset{r}
  {
    var at := |rs|;
    while at > 0 && Before(r, rs[at - 1])
      invariant 0 <= at <= |rs|
      invariant forall i :: at <= i < |rs| ==> Before(r, rs[i])
    {
      at := at - 1;
    }
    longer := rs[..at] + [r] + rs[at..];
    assert rs == rs[..at] + rs[at..];
    StaysOrdered(rs, r, at);
  }

  lemma StaysOrdered(rs: seq<Result>, r: Result, at: nat)
    requires Ordered(rs) && at <= |rs| && (at > 0 ==> !Before(r, rs[at - 1]))
    requires forall i :: at <= i < |rs| ==> Before(r, rs[i])
    ensures Ordered(rs[..at] + [r] + rs[at..])
  {
    forall i | 0 <= i < at ensures !Before(r, rs[i]) {
      if i < at - 1 { BeforeOrder(r, rs[i], rs[at - 1]); }
    }
    forall i | at <= i < |rs| ensures !Before(rs[i], r) { BeforeOrder(rs[i], r, r); }
    hide Before;
    var longer := rs[..at] + [r] + rs[at..];
    forall i | 0 <= i < |longer| ensures longer[i] == (if i < at then rs[i] else if i == at then r else rs[i - 1]) {}
  }

  method SortResults(rs: seq<Result>) returns (sorted: seq<Result>)
    ensures Ordered(sorted) && multiset(sorted) == multiset(rs)
  {
    sorted := [];
    for i := 0 to |rs|
      invariant Ordered(sorted) && multiset(sorted) == multiset(rs[..i])
    {
      assert rs[..i + 1] == rs[..i] + [rs[i]];
      sorted := Insert(sorted, rs[i]);
    }
    assert rs[..|rs|] == rs;
  }

  lemma {:induction false} LessIsOrder(a: string, b: string, c: string)
    ensures !Less(a, a)
    ensures Less(a, b) && Less(b, c) ==> Less(a, c)
    ensures a == b || Less(a, b) || Less(b, a)
    ensures !(Less(a, b) && Less(b, a))
  {
    if a != "" { LessIsOrder(a[1..], if b != "" then b[1..] else "", if c != "" then c[1..] else ""); }
    if a != "" && b != "" && a[0] == b[0] && a[1..] == b[1..] {
      assert a == [a[0]] + a[1..] && b == [b[0]] + b[1..];
    }
  }

  lemma BeforeOrder(a: Result, b: Result, c: Result)
    ensures !Before(a, a)
    ensures Before(a, b) && Before(b, c) ==> Before(a, c)
    ensures !(Before(a, b) && Before(b, a))
    ensures Before(a, b) && !Before(c, b) ==> Before(a, c)
    ensures (Text(a.source), a.id) == (Text(b.source), b.id) || Before(a, b) || Before(b, a)
  {
    LessIsOrder(Text(a.source), Text(b.source), Text(c.source));
    LessIsOrder(Text(b.source), Text(c.source), Text(a.source));
    LessIsOrder(Text(a.source), Text(c.source), Text(b.source));
    LessIsOrder(a.id, b.id, c.id);
    LessIsOrder(b.id, c.id, a.id);
    LessIsOrder(a.id, c.id, b.id);
  }

  // ---------- the profile ----------

  function Mine(ctx: Context, claims: seq<Claim>): seq<Claim> { Filter(c => IsMine(ctx, c), claims) }
  function Reviewed(ctx: Context, claims: seq<Claim>): seq<Claim> { Filter(c => IsReviewed(ctx, c), claims) }
  function Usable(ctx: Context, claims: seq<Claim>): seq<Claim> { Filter(c => IsUsable(ctx, c), claims) }
  function ResultsOf(ctx: Context, usable: seq<Claim>): seq<Result> { Apply(c => ResultOf(ctx, c), usable) }

  function SourcesOf(ctx: Context, claims: seq<Claim>): set<string> {
    set c | c in claims && IsCounted(ctx, c) && OrEmpty(c.source) != "" :: Text(c.source)
  }

  function SamplesOf(ctx: Context, claims: seq<Claim>): set<string> {
    set c | c in claims && IsCounted(ctx, c) && c.sample != "" :: c.sample
  }

  ghost predicate CountsMatch(ctx: Context, claims: seq<Claim>, rejections: seq<Rejection>, p: Profile) {
    && p.direction == CountBy(claims, DirectionKey(ctx))
    && p.forClasses == CountBy(claims, SideKey(ctx, false)) && p.againstClasses == CountBy(claims, SideKey(ctx, true))
    && p.notUsable == CountBy(claims, NotUsableKey(ctx)) && p.rejected == CountBy(rejections, RejectedKey(ctx))
    && p.awaitingReview as int == |Mine(ctx, claims)| - |Reviewed(ctx, claims)|
  }

  ghost predicate IsProfile(ctx: Context, claims: seq<Claim>, rejections: seq<Rejection>, p: Profile) {
    && Ordered(p.results) && multiset(p.results) == multiset(ResultsOf(ctx, Usable(ctx, claims)))
    && CountsMatch(ctx, claims, rejections, p)
    && p.sources == SourcesOf(ctx, claims) && p.samples == SamplesOf(ctx, claims)
    && p.state == (if p.results == [] then Some(NO_VERIFIED_CLAIM) else None)
    && p.examined == ctx.examined && p.provisional == (ctx.provisional || p.awaitingReview > 0)
    && p.workGroups == ctx.workGroups
    && p.blocking == ctx.blocking + (if p.awaitingReview > 0 then {AWAITING_REVIEW} else {})
  }

  lemma {:induction false} FilterShrinks<T>(p: T -> bool, q: T -> bool, s: seq<T>)
    requires forall x :: p(x) ==> q(x)
    ensures |Filter(p, s)| <= |Filter(q, s)|
  {
    if s != [] { FilterShrinks(p, q, s[1..]); }
  }

  method BuildProfile(ctx: Context, claims: seq<Claim>, rejections: seq<Rejection>) returns (p: Profile)
    ensures IsProfile(ctx, claims, rejections, p)
  {
    var mine, reviewed := Mine(ctx, claims), Reviewed(ctx, claims);
    FilterShrinks(c => IsReviewed(ctx, c), c => IsMine(ctx, c), claims);
    var awaiting: nat := |mine| - |reviewed|;
    var notUsable := CountEach(claims, NotUsableKey(ctx));
    var results := SortResults(ResultsOf(ctx, Usable(ctx, claims)));
    var direction := CountEach(claims, DirectionKey(ctx));
    var yes, no := CountSides(ctx, claims);
    var rejected := CountEach(rejections, RejectedKey(ctx));
    p := Profile(results, if results == [] then Some(NO_VERIFIED_CLAIM) else None, direction, yes, no, rejected,
                 SamplesOf(ctx, claims), SourcesOf(ctx, claims), ctx.examined, awaiting, notUsable, ctx.workGroups,
                 ctx.provisional || awaiting > 0, ctx.blocking + (if awaiting > 0 then {AWAITING_REVIEW} else {}));
  }
}
