/** `claimstone/admissibility.py`: one acquisition row per candidate, the acquisition rate, and
    whether a round may produce verdicts. Rates are exact reals. */
module Admissibility {
  import opened Seqs
  import opened Ledger
  import opened Sums

  /** `regated` says the row carries `regated_from`; `sourceId` may be empty; `sha` names the bytes. */
  datatype Acquisition = Acquisition(key: Option<string>, acquired: bool, regated: bool, provenance: string,
                                     sourceId: string, failure: string, sha: string)
  datatype Candidate = Candidate(key: Option<string>, round: string, sourceId: string, sourceClass: string)

  /** A verdict on the bytes `sha`, filed under the source id alone. */
  datatype Document = Document(sourceId: Option<string>, confirmed: bool, sha: string)
  datatype Query = Query(id: Option<string>, round: string, ok: bool)

  const OPERATOR_SUPPLIED := "operator-supplied"
  const WEB_LOCATOR := "web_locator"

  // ---------- one row per candidate ----------

  predicate Counts(row: Acquisition, excluded: set<string>) {
    row.key.Some? && row.provenance !in excluded
  }

  predicate Replaces(row: Acquisition, held: Acquisition) {
    row.regated || row.acquired || !held.acquired
  }

  function Collapsed(rows: seq<Acquisition>, excluded: set<string>): map<string, Acquisition> {
    if rows == [] then map[]
    else
      var best, row := Collapsed(rows[..|rows| - 1], excluded), rows[|rows| - 1];
      if Counts(row, excluded) && (row.key.value in best ==> Replaces(row, best[row.key.value]))
      then best[row.key.value := row] else best
  }

  method Collapse(rows: seq<Acquisition>, excluded: set<string>) returns (best: map<string, Acquisition>)
    ensures best == Collapsed(rows, excluded)
  {
    best := map[];
    for i := 0 to |rows|
      invariant best == Collapsed(rows[..i], excluded)
    {
      assert rows[..i + 1][..i] == rows[..i];
      var row := rows[i];
      if row.key.None? || row.provenance in excluded {
        continue;
      }
      var key := row.key.value;
      if key !in best || row.regated || row.acquired || !best[key].acquired {
        best := best[key := row];
      }
    }
    assert rows[..|rows|] == rows;
  }

  // ---------- the round's figures ----------

  /** The sets the figures count, over the selected candidates. */
  datatype Round = Round(candidates: map<string, Candidate>, rows: map<string, Acquisition>,
                         documents: map<string, Document>)

  ghost predicate ValidRound(r: Round) { r.rows.Keys <= r.candidates.Keys }

  function Identifier(key: string, row: Acquisition): string {
    if row.sourceId != "" then row.sourceId else key
  }

  function ClassName(c: Candidate): string {
    if c.sourceClass != "" then c.sourceClass else "UNCLASSIFIED"
  }

  function FailureName(r: Round, key: string): string {
    if key in r.rows && r.rows[key].failure != "" then r.rows[key].failure else "NOT_ATTEMPTED"
  }

  predicate Obtained(r: Round, key: string) { key in r.rows && r.rows[key].acquired }

  predicate Judged(r: Round, key: string) { Obtained(r, key) && Identifier(key, r.rows[key]) in r.documents }

  predicate Confirmed(r: Round, key: string) {
    Judged(r, key) && r.documents[Identifier(key, r.rows[key])].confirmed
  }

  function ObtainedSet(r: Round): set<string> { set k | k in r.rows && Obtained(r, k) }
  function ConfirmedSet(r: Round): set<string> { set k | k in r.rows && Confirmed(r, k) }
  function AwaitingSet(r: Round): set<string> { set k | k in r.rows && Obtained(r, k) && !Judged(r, k) }
  function RefutedSet(r: Round): set<string> { set k | k in r.rows && Judged(r, k) && !Confirmed(r, k) }
  function FailedSet(r: Round): set<string> { set k | k in r.candidates && !Obtained(r, k) }

  function ClassOf(r: Round): map<string, string> { map k | k in r.candidates :: ClassName(r.candidates[k]) }
  function FailureOf(r: Round): map<string, string> { map k | k in r.candidates :: FailureName(r, k) }

  datatype Pool = Pool(attempted: nat, obtained: nat, confirmed: nat, awaiting: nat, refuted: nat)
  datatype Bucket = Bucket(found: nat, obtained: nat, confirmed: nat, awaiting: nat)

  function PoolOf(r: Round): Pool { PoolWithin(r, r.rows.Keys) }

  function PoolWithin(r: Round, done: set<string>): Pool {
    Pool(|r.rows.Keys|, |ObtainedSet(r) * done|, |ConfirmedSet(r) * done|, |AwaitingSet(r) * done|,
         |RefutedSet(r) * done|)
  }

  function PoolCounted(r: Round, key: string, p: Pool): Pool {
    Pool(p.attempted,
         p.obtained + (if Obtained(r, key) then 1 else 0), p.confirmed + (if Confirmed(r, key) then 1 else 0),
         p.awaiting + (if Obtained(r, key) && !Judged(r, key) then 1 else 0),
         p.refuted + (if Judged(r, key) && !Confirmed(r, key) then 1 else 0))
  }

  lemma PoolGrows(r: Round, done: set<string>, key: string)
    requires key !in done && key in r.rows
    ensures PoolWithin(r, done + {key}) == PoolCounted(r, key, PoolWithin(r, done))
  {
    Grow(ObtainedSet(r), done, key);
    Grow(ConfirmedSet(r), done, key);
    Grow(AwaitingSet(r), done, key);
    Grow(RefutedSet(r), done, key);
  }

  /** One row of the pooled loop. */
  method CountRow(r: Round, key: string, pool: Pool) returns (pool': Pool)
    requires key in r.rows
    ensures pool' == PoolCounted(r, key, pool)
  {
    var row := r.rows[key];
    if !row.acquired {
      return pool;
    }
    pool' := pool.(obtained := pool.obtained + 1);
    var identifier := Identifier(key, row);
    if identifier !in r.documents {
      pool' := pool'.(awaiting := pool.awaiting + 1);
    } else if r.documents[identifier].confirmed {
      pool' := pool'.(confirmed := pool.confirmed + 1);
    } else {
      pool' := pool'.(refuted := pool.refuted + 1);
    }
  }

  lemma PoolStarts(r: Round)
    ensures PoolWithin(r, {}) == Pool(|r.rows.Keys|, 0, 0, 0, 0)
  {
    assert ObtainedSet(r) * {} == {} && ConfirmedSet(r) * {} == {};
    assert AwaitingSet(r) * {} == {} && RefutedSet(r) * {} == {};
  }

  lemma PoolAdvances(r: Round, todo: set<string>, key: string)
    requires key in todo && todo <= r.rows.Keys
    ensures PoolWithin(r, r.rows.Keys - (todo - {key})) == PoolCounted(r, key, PoolWithin(r, r.rows.Keys - todo))
  {
    assert r.rows.Keys - (todo - {key}) == (r.rows.Keys - todo) + {key};
    PoolGrows(r, r.rows.Keys - todo, key);
  }

  /** The pooled loop, over the collapsed rows. */
  method PooledLoop(r: Round) returns (pool: Pool)
    ensures pool == PoolOf(r)
  {
    pool := Pool(|r.rows.Keys|, 0, 0, 0, 0);
    var todo := r.rows.Keys;
    PoolStarts(r);
    assert r.rows.Keys - todo == {};
    while todo != {}
      invariant todo <= r.rows.Keys && pool == PoolWithin(r, r.rows.Keys - todo)
      decreases todo
    {
      var key :| key in todo;
      PoolAdvances(r, todo, key);
      pool := CountRow(r, key, pool);
      todo := todo - {key};
    }
    assert r.rows.Keys - todo == r.rows.Keys;
  }

  lemma Grow(s: set<string>, done: set<string>, key: string)
    requires key !in done
    ensures |s * (done + {key})| == |s * done| + if key in s then 1 else 0
  {
    if key in s {
      assert s * (done + {key}) == s * done + {key};
    } else {
      assert s * (done + {key}) == s * done;
    }
  }

  ghost predicate BucketsOf(r: Round, done: set<string>, byClass: map<string, Bucket>) {
    && (forall k :: k in done ==> k in r.candidates && ClassName(r.candidates[k]) in byClass)
    && (forall c :: c in byClass ==> byClass[c].found > 0 && byClass[c] == BucketOf(r, done, c))
  }

  function BucketOf(r: Round, done: set<string>, c: string): Bucket {
    Bucket(|InClass(done, ClassOf(r), c)|, |InClass(ObtainedSet(r) * done, ClassOf(r), c)|,
           |InClass(ConfirmedSet(r) * done, ClassOf(r), c)|, |InClass(AwaitingSet(r) * done, ClassOf(r), c)|)
  }

  ghost predicate FailuresOf(r: Round, done: set<string>, failures: map<string, nat>) {
    && (forall k :: k in FailedSet(r) * done ==> FailureName(r, k) in failures)
    && (forall n :: n in failures ==> failures[n] == |InClass(FailedSet(r) * done, FailureOf(r), n)|)
  }

  lemma GrowClass(s: set<string>, done: set<string>, classOf: map<string, string>, key: string, c: string)
    requires key !in done && key in classOf
    ensures |InClass(s * (done + {key}), classOf, c)| ==
            |InClass(s * done, classOf, c)| + if key in s && classOf[key] == c then 1 else 0
  {
    if key in s && classOf[key] == c {
      assert InClass(s * (done + {key}), classOf, c) == InClass(s * done, classOf, c) + {key};
    } else {
      assert InClass(s * (done + {key}), classOf, c) == InClass(s * done, classOf, c);
    }
  }

  lemma GrowBucket(r: Round, done: set<string>, key: string, c: string)
    requires ValidRound(r) && key !in done && key in r.candidates && done <= r.candidates.Keys
    ensures var old', new' := BucketOf(r, done, c), BucketOf(r, done + {key}, c);
      new' == if ClassName(r.candidates[key]) != c then old' else
        Bucket(old'.found + 1, old'.obtained + (if Obtained(r, key) then 1 else 0),
               old'.confirmed + (if Confirmed(r, key) then 1 else 0),
               old'.awaiting + (if Obtained(r, key) && !Judged(r, key) then 1 else 0))
  {
    GrowClass(r.candidates.Keys, done, ClassOf(r), key, c);
    assert r.candidates.Keys * done == done && r.candidates.Keys * (done + {key}) == done + {key};
    GrowClass(ObtainedSet(r), done, ClassOf(r), key, c);
    GrowClass(ConfirmedSet(r), done, ClassOf(r), key, c);
    GrowClass(AwaitingSet(r), done, ClassOf(r), key, c);
  }

  const EMPTY_BUCKET := Bucket(0, 0, 0, 0)

  function Counted(r: Round, key: string, bucket: Bucket): Bucket
    requires key in r.candidates
  {
    Bucket(bucket.found + 1, bucket.obtained + (if Obtained(r, key) then 1 else 0),
           bucket.confirmed + (if Confirmed(r, key) then 1 else 0),
           bucket.awaiting + (if Obtained(r, key) && !Judged(r, key) then 1 else 0))
  }

  lemma BucketGrows(r: Round, done: set<string>, byClass: map<string, Bucket>, key: string, d: string)
    requires ValidRound(r) && BucketsOf(r, done, byClass) && key !in done && key in r.candidates
    requires d in byClass || d == ClassName(r.candidates[key])
    ensures BucketOf(r, done + {key}, d) ==
      var held := if d in byClass then byClass[d] else EMPTY_BUCKET;
      if d == ClassName(r.candidates[key]) then Counted(r, key, held) else held
  {
    assert done <= r.candidates.Keys;
    GrowBucket(r, done, key, d);
    if d !in byClass {
      NoneOfClass(r, done, byClass, d);
    }
  }

  lemma NoneOfClass(r: Round, done: set<string>, byClass: map<string, Bucket>, d: string)
    requires BucketsOf(r, done, byClass) && d !in byClass
    ensures BucketOf(r, done, d) == EMPTY_BUCKET
  {
    assert InClass(done, ClassOf(r), d) == {};
    assert InClass(ObtainedSet(r) * done, ClassOf(r), d) == {};
    assert InClass(ConfirmedSet(r) * done, ClassOf(r), d) == {};
    assert InClass(AwaitingSet(r) * done, ClassOf(r), d) == {};
  }

  lemma BucketsGrow(r: Round, done: set<string>, byClass: map<string, Bucket>, key: string)
    requires ValidRound(r) && BucketsOf(r, done, byClass) && key !in done && key in r.candidates
    ensures var c := ClassName(r.candidates[key]);
      BucketsOf(r, done + {key}, byClass[c := Counted(r, key, if c in byClass then byClass[c] else EMPTY_BUCKET)])
  {
    hide BucketOf, ClassName;
    var c := ClassName(r.candidates[key]);
    var more := byClass[c := Counted(r, key, if c in byClass then byClass[c] else EMPTY_BUCKET)];
    forall d | d in more ensures more[d].found > 0 && more[d] == BucketOf(r, done + {key}, d) {
      BucketGrows(r, done, byClass, key, d);
    }
  }

  /** One candidate of the per-class loop. */
  method CountCandidate(r: Round, key: string, byClass: map<string, Bucket>, failures: map<string, nat>)
      returns (byClass': map<string, Bucket>, failures': map<string, nat>)
    requires key in r.candidates
    ensures var c := ClassName(r.candidates[key]);
      byClass' == byClass[c := Counted(r, key, if c in byClass then byClass[c] else EMPTY_BUCKET)]
    ensures failures' == if Obtained(r, key) then failures else OneMore(failures, FailureName(r, key))
  {
    var klass := ClassName(r.candidates[key]);
    var bucket := if klass in byClass then byClass[klass] else EMPTY_BUCKET;
    bucket := bucket.(found := bucket.found + 1);
    failures' := failures;
    if key in r.rows && r.rows[key].acquired {
      bucket := bucket.(obtained := bucket.obtained + 1);
      var identifier := Identifier(key, r.rows[key]);
      if identifier !in r.documents {
        bucket := bucket.(awaiting := bucket.awaiting + 1);
      } else if r.documents[identifier].confirmed {
        bucket := bucket.(confirmed := bucket.confirmed + 1);
      }
    } else {
      failures' := OneMore(failures, FailureName(r, key));
    }
    byClass' := byClass[klass := bucket];
  }

  function OneMore(counts: map<string, nat>, name: string): map<string, nat> {
    counts[name := (if name in counts then counts[name] else 0) + 1]
  }

  /** The per-class loop, over the candidates. */
  method ClassLoop(r: Round) returns (byClass: map<string, Bucket>, failures: map<string, nat>)
    requires ValidRound(r)
    ensures BucketsOf(r, r.candidates.Keys, byClass) && FailuresOf(r, r.candidates.Keys, failures)
  {
    byClass, failures := map[], map[];
    var todo := r.candidates.Keys;
    ghost var done: set<string> := {};
    while todo != {}
      invariant todo + done == r.candidates.Keys && todo !! done
      invariant BucketsOf(r, done, byClass) && FailuresOf(r, done, failures)
      decreases todo
    {
      var key :| key in todo;
      BucketsGrow(r, done, byClass, key);
      FailuresGrow(r, done, failures, key);
      byClass, failures := CountCandidate(r, key, byClass, failures);
      todo := todo - {key};
      done := done + {key};
    }
    assert done == r.candidates.Keys;
  }

  lemma FailuresGrow(r: Round, done: set<string>, failures: map<string, nat>, key: string)
    requires FailuresOf(r, done, failures) && key !in done && key in r.candidates
    ensures FailuresOf(r, done + {key}, if Obtained(r, key) then failures else OneMore(failures, FailureName(r, key)))
  {
    var name := FailureName(r, key);
    if name !in failures {
      assert InClass(FailedSet(r) * done, FailureOf(r), name) == {};
    }
    forall n
      ensures |InClass(FailedSet(r) * (done + {key}), FailureOf(r), n)| ==
        |InClass(FailedSet(r) * done, FailureOf(r), n)| + (if key in FailedSet(r) && name == n then 1 else 0)
    {
      GrowClass(FailedSet(r), done, FailureOf(r), key, n);
    }
  }

  // ---------- the report ----------

  datatype Store = Store(candidates: seq<Candidate>, acquisitions: seq<Acquisition>, documents: seq<Document>,
                         queries: seq<Query>, repaired: bool)
  datatype Selection = Selection(round: Option<string>, manifestOnly: bool)

  datatype Blocking = AwaitingDiscovery | AwaitingClassification | AwaitingAcquire | NormalizeNotStarted
    | AwaitingNormalize | OrphanAcquisitions | LedgerRepairs

  datatype Figures = Figures(found: nat, classified: nat, pool: Pool, byClass: map<string, Bucket>,
                             failures: map<string, nat>, started: bool)
  /** `supplied` names the source of each candidate only an operator-supplied copy obtains, when those
      do not count; `located` are the candidates whose copy the open-web locator found. */
  datatype Report = Report(figures: Figures, orphans: set<string>, blocking: set<Blocking>,
                           supplied: map<string, string>, located: set<string>)

  predicate InRound(sel: Selection, round: string) { sel.round.None? || sel.round.value == round }

  function Selected(s: Store, sel: Selection): map<string, Candidate> {
    var all := LatestBy(s.candidates, (c: Candidate) => c.key);
    map k | k in all && InRound(sel, all[k].round) && (sel.manifestOnly ==> all[k].sourceId != "") :: all[k]
  }

  /** Copies an operator supplied are read only where the project counts them. */
  function Excluded(countSupplied: bool): set<string> {
    if countSupplied then {} else {OPERATOR_SUPPLIED}
  }

  function RoundFor(s: Store, sel: Selection, countSupplied: bool): (r: Round)
    ensures ValidRound(r)
  {
    var candidates := Selected(s, sel);
    var best := Collapsed(s.acquisitions, Excluded(countSupplied));
    Round(candidates, map k | k in best && k in candidates :: best[k],
          LatestBy(s.documents, (d: Document) => d.sourceId))
  }

  function OrphansOf(s: Store, sel: Selection): set<string> {
    if sel.round.None? && !sel.manifestOnly
    then Collapsed(s.acquisitions, {}).Keys - Selected(s, sel).Keys else {}
  }

  function SuppliedIn(separate: Round, all: Round, countSupplied: bool): map<string, string> {
    map k | k in all.rows && !countSupplied && all.rows[k].provenance == OPERATOR_SUPPLIED && Obtained(all, k)
            && !Obtained(separate, k) :: Identifier(k, all.rows[k])
  }

  function SuppliedOnly(s: Store, sel: Selection, countSupplied: bool): map<string, string> {
    SuppliedIn(RoundFor(s, sel, countSupplied), RoundFor(s, sel, true), countSupplied)
  }

  function Located(r: Round): set<string> {
    set k | k in r.rows && Obtained(r, k) && r.rows[k].provenance == WEB_LOCATOR
  }

  function FailedQueries(s: Store, sel: Selection): set<string> {
    var latest := LatestBy(s.queries, (q: Query) => q.id);
    set id | id in latest && !sel.manifestOnly && InRound(sel, latest[id].round) && !latest[id].ok
  }

  function ClassifiedSet(r: Round): set<string> {
    set k | k in r.candidates && r.candidates[k].sourceClass != ""
  }

  ghost predicate Measures(r: Round, f: Figures) {
    && f.found == |r.candidates.Keys| && f.classified == |ClassifiedSet(r)| && f.pool == PoolOf(r)
    && BucketsOf(r, r.candidates.Keys, f.byClass) && FailuresOf(r, r.candidates.Keys, f.failures)
    && f.started == (r.documents != map[])
  }

  predicate Blocks(reason: Blocking, f: Figures, orphans: set<string>, failedQueries: set<string>, repaired: bool) {
    match reason
    case AwaitingDiscovery => failedQueries != {}
    case AwaitingClassification => f.classified < f.found
    case AwaitingAcquire => f.pool.attempted < f.found
    case NormalizeNotStarted => !f.started
    case AwaitingNormalize => f.started && f.pool.awaiting > 0
    case OrphanAcquisitions => orphans != {}
    case LedgerRepairs => repaired
  }

  ghost predicate IsReport(s: Store, sel: Selection, countSupplied: bool, rep: Report) {
    && Measures(RoundFor(s, sel, countSupplied), rep.figures) && rep.orphans == OrphansOf(s, sel)
    && rep.supplied == SuppliedOnly(s, sel, countSupplied) && rep.located == Located(RoundFor(s, sel, countSupplied))
    && forall reason :: reason in rep.blocking <==>
         Blocks(reason, rep.figures, rep.orphans, FailedQueries(s, sel), s.repaired)
  }

  method ReadRound(s: Store, sel: Selection, countSupplied: bool) returns (r: Round)
    ensures r == RoundFor(s, sel, countSupplied)
  {
    var candidates := Selected(s, sel);
    var best := Collapse(s.acquisitions, if countSupplied then {} else {OPERATOR_SUPPLIED});
    var documents := ReadLatestBy(s.documents, (d: Document) => d.sourceId);
    r := Round(candidates, map k | k in best && k in candidates :: best[k], documents);
  }

  method Measure(r: Round) returns (f: Figures)
    requires ValidRound(r)
    ensures Measures(r, f)
  {
    var pool := PooledLoop(r);
    var byClass, failures := ClassLoop(r);
    var classified := set k | k in r.candidates && r.candidates[k].sourceClass != "";
    assert classified == ClassifiedSet(r);
    f := Figures(|r.candidates.Keys|, |classified|, pool, byClass, failures, r.documents != map[]);
  }

  method ListBlocking(f: Figures, orphans: set<string>, failedQueries: set<string>, repaired: bool)
      returns (blocking: set<Blocking>)
    ensures forall reason :: reason in blocking <==> Blocks(reason, f, orphans, failedQueries, repaired)
  {
    blocking := {};
    if failedQueries != {} { blocking := blocking + {AwaitingDiscovery}; }
    if f.classified < f.found { blocking := blocking + {AwaitingClassification}; }
    if f.pool.attempted < f.found { blocking := blocking + {AwaitingAcquire}; }
    if !f.started {
      blocking := blocking + {NormalizeNotStarted};
    } else if f.pool.awaiting > 0 {
      blocking := blocking + {AwaitingNormalize};
    }
    if orphans != {} { blocking := blocking + {OrphanAcquisitions}; }
    if repaired { blocking := blocking + {LedgerRepairs}; }
  }

  method Rate(s: Store, sel: Selection, countSupplied: bool) returns (rep: Report)
    ensures IsReport(s, sel, countSupplied, rep)
  {
    var r := ReadRound(s, sel, countSupplied);
    var everything := Collapse(s.acquisitions, {});
    var orphans := if sel.round.None? && !sel.manifestOnly then everything.Keys - r.candidates.Keys else {};
    var figures := Measure(r);
    var blocking := ListBlocking(figures, orphans, FailedQueries(s, sel), s.repaired);
    var all := ReadRound(s, sel, true);
    hide Measures, RoundFor, Located, SuppliedIn, FailedQueries, Collapsed, Selected;
    var supplied, located := ReadLines(r, all, countSupplied);
    rep := Report(figures, orphans, blocking, supplied, located);
  }

  method ReadLines(r: Round, all: Round, countSupplied: bool)
      returns (supplied: map<string, string>, located: set<string>)
    ensures supplied == SuppliedIn(r, all, countSupplied) && located == Located(r)
  {
    supplied := map k | k in all.rows && !countSupplied && all.rows[k].provenance == OPERATOR_SUPPLIED
                        && all.rows[k].acquired && !(k in r.rows && r.rows[k].acquired) :: Identifier(k, all.rows[k]);
    located := set k | k in r.rows && r.rows[k].acquired && r.rows[k].provenance == WEB_LOCATOR;
  }

  // ---------- rates and floors ----------

  function Share(n: nat, of: nat): real
    requires of > 0
  {
    n as real / of as real
  }

  /** The lower bound and the ceiling: confirmed once any document was judged, obtained before. */
  function Lower(started: bool, obtained: nat, confirmed: nat): nat { if started then confirmed else obtained }
  function Upper(started: bool, obtained: nat, confirmed: nat, awaiting: nat): nat {
    if started then confirmed + awaiting else obtained
  }

  function RateOf(f: Figures): Option<real> {
    if f.found == 0 then None else Some(Share(Lower(f.started, f.pool.obtained, f.pool.confirmed), f.found))
  }

  function RateUpperOf(f: Figures): Option<real> {
    if f.found == 0 then None
    else Some(Share(Upper(f.started, f.pool.obtained, f.pool.confirmed, f.pool.awaiting), f.found))
  }

  function ClassRate(started: bool, b: Bucket): real
    requires b.found > 0
  {
    Share(Lower(started, b.obtained, b.confirmed), b.found)
  }

  function FloorOf(floor: real, declared: map<string, real>, c: string): real {
    if c in declared then declared[c] else floor
  }

  predicate Admitted(f: Figures, floor: real, declared: map<string, real>)
    requires forall c :: c in f.byClass ==> f.byClass[c].found > 0
  {
    && RateOf(f).Some? && RateOf(f).value >= floor
    && forall c :: c in f.byClass ==> ClassRate(f.started, f.byClass[c]) >= FloorOf(floor, declared, c)
  }

  /** A round is admitted when the pooled rate meets the project floor and every class its own. */
  method Admit(f: Figures, floor: real, declared: map<string, real>) returns (ok: bool, below: set<string>)
    requires forall c :: c in f.byClass ==> f.byClass[c].found > 0
    ensures below == set c | c in f.byClass && ClassRate(f.started, f.byClass[c]) < FloorOf(floor, declared, c)
    ensures ok <==> Admitted(f, floor, declared)
  {
    var achieved := RateOf(f);
    ok := achieved.Some? && achieved.value >= floor;
    below := {};
    var todo := f.byClass.Keys;
    while todo != {}
      invariant todo <= f.byClass.Keys
      invariant below == set c | c in f.byClass && c !in todo
        && ClassRate(f.started, f.byClass[c]) < FloorOf(floor, declared, c)
      decreases todo
    {
      var c :| c in todo;
      todo := todo - {c};
      if !(ClassRate(f.started, f.byClass[c]) >= FloorOf(floor, declared, c)) {
        below := below + {c};
      }
    }
    if below != {} {
      ok := false;
      ghost var c :| c in below;
      assert !Admitted(f, floor, declared);
    } else {
      assert forall c :: c in f.byClass ==> c !in below;
    }
  }
}
