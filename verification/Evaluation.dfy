/** One evaluation case and the aggregate over all cases (`_case_result`, `_aggregate`, evaluation.py). */
module Evaluation {
  import opened Common
  import opened Ranking

  type SourceId = string

  datatype Case = Case(expected: seq<SourceId>, forbidden: seq<SourceId>)

  datatype Hit = Hit(chunkId: string, sourceId: SourceId, score: real)

  datatype CaseResult = CaseResult(
    retrieved: seq<SourceId>,
    hit: bool,
    reciprocalRank: real,
    hitAt1: bool,
    recallAtK: real,
    averagePrecision: real,
    expectedRanks: seq<nat>,
    forbiddenHitCount: nat,
    forbiddenAt1: bool)

  /** `RetrievalEvaluationCase.__post_init__` on the two ID lists. */
  ghost predicate ValidCase(c: Case) {
    Distinct(c.expected) && Distinct(c.forbidden) && c.expected != [] && Elements(c.expected) !! Elements(c.forbidden)
  }

  // ----- the ranking

  function SourcesOf(hits: seq<Hit>): seq<SourceId> {
    Map(hits, (h: Hit) => h.sourceId)
  }

  function Ranked(hits: seq<Hit>, topK: nat): seq<SourceId> {
    var all := FirstOccurrences(SourcesOf(hits));
    if |all| <= topK then all else all[..topK]
  }

  lemma RankedDistinct(hits: seq<Hit>, topK: nat)
    ensures Distinct(Ranked(hits, topK)) && |Ranked(hits, topK)| <= topK
  {
    FirstOccurrencesMeaning(SourcesOf(hits));
  }

  /** Hit `k` is the first from this source. */
  predicate FirstHit(hits: seq<Hit>, id: SourceId, k: nat) {
    k < |hits| && hits[k].sourceId == id && forall j | 0 <= j < k :: hits[j].sourceId != id
  }

  lemma FirstHitIndex(hits: seq<Hit>, id: SourceId, k: nat)
    ensures FirstHit(hits, id, k) <==> id in SourcesOf(hits) && IndexOf(SourcesOf(hits), id) == k
  {
    var sources := SourcesOf(hits);
    assert forall j | 0 <= j < |hits| :: sources[j] == hits[j].sourceId;
    if id in sources {
      var i := IndexOf(sources, id);
      assert forall j | 0 <= j < i :: sources[j] in sources[..i];
      if FirstHit(hits, id, k) { assert sources[k] == id && !(k < i) && !(i < k); }
    } else if k < |hits| {
      assert sources[k] in sources;
    }
  }

  function HitSources(hits: seq<Hit>): set<SourceId> {
    set h | h in hits :: h.sourceId
  }

  lemma HitSourcesAre(hits: seq<Hit>)
    ensures Elements(SourcesOf(hits)) == HitSources(hits)
  {
    forall id ensures id in Elements(SourcesOf(hits)) <==> id in HitSources(hits) {
      MapMember(hits, (h: Hit) => h.sourceId, id);
    }
  }

  /** The ranking is the first `topK` different sources, or all of them, by where each is first hit. */
  lemma RankedMeaning(hits: seq<Hit>, topK: nat)
    ensures var r := Ranked(hits, topK);
      && |r| == (if |HitSources(hits)| <= topK then |HitSources(hits)| else topK)
      && (forall i | 0 <= i < |r| :: r[i] in HitSources(hits))
      && (forall i, j, k, l | 0 <= i < j < |r| && FirstHit(hits, r[i], k) && FirstHit(hits, r[j], l) :: k < l)
      && forall i, id, k, l | 0 <= i < |r| && id !in r && FirstHit(hits, r[i], k) && FirstHit(hits, id, l) :: k < l
  {
    var sources := SourcesOf(hits);
    var all, r := FirstOccurrences(sources), Ranked(hits, topK);
    FirstOccurrencesMeaning(sources);
    HitSourcesAre(hits);
    DistinctCount(all);
    forall i | 0 <= i < |r| ensures r[i] in HitSources(hits) { assert all[i] in Elements(all); }
    forall i, j, k, l | 0 <= i < j < |r| && FirstHit(hits, r[i], k) && FirstHit(hits, r[j], l) ensures k < l {
      FirstHitIndex(hits, r[i], k);
      FirstHitIndex(hits, r[j], l);
      assert r[i] == all[i] && r[j] == all[j];
    }
    forall i, id, k, l | 0 <= i < |r| && id !in r && FirstHit(hits, r[i], k) && FirstHit(hits, id, l) ensures k < l {
      FirstHitIndex(hits, r[i], k);
      FirstHitIndex(hits, id, l);
      assert id in Elements(all);
      var j :| 0 <= j < |all| && all[j] == id;
      assert forall m | 0 <= m < |r| :: all[m] in r;
      assert r[i] == all[i];
    }
  }

  /** `rank_by_source.get(source_id, 0)`. */
  function RankOf(ranked: seq<SourceId>, id: SourceId): nat {
    if id in ranked then IndexOf(ranked, id) + 1 else 0
  }

  ghost predicate HitsAccepted(hits: seq<Hit>) {
    Distinct(Map(hits, (h: Hit) => h.chunkId)) && forall i | 1 <= i < |hits| :: hits[i - 1].score >= hits[i].score
  }

  // ----- the code

  method RankTable(ranked: seq<SourceId>) returns (ranks: map<SourceId, nat>)
    requires Distinct(ranked)
    ensures ranks.Keys == Elements(ranked)
    ensures forall id | id in ranks :: ranks[id] == RankOf(ranked, id)
  {
    ranks := map[];
    var i := 0;
    while i < |ranked|
      invariant 0 <= i <= |ranked|
      invariant forall id :: id in ranks <==> exists j :: 0 <= j < i && ranked[j] == id
      invariant forall id | id in ranks :: id in ranked && ranks[id] == IndexOf(ranked, id) + 1
    {
      IndexDistinct(ranked, i);
      ranks := ranks[ranked[i] := i + 1];
      i := i + 1;
    }
    forall id ensures id in ranks <==> id in Elements(ranked) {}
  }

  function Positive(): nat -> bool {
    (r: nat) => r > 0
  }

  /** The smallest positive rank and how many there are. */
  method FoundRanks(ranks: seq<nat>) returns (count: nat, least: nat)
    ensures count == |Filter(ranks, Positive())|
    ensures count == 0 <==> forall i | 0 <= i < |ranks| :: ranks[i] == 0
    ensures count > 0 ==>
      least > 0 && least in ranks && forall i | 0 <= i < |ranks| :: ranks[i] == 0 || least <= ranks[i]
  {
    count, least := 0, 0;
    var i := 0;
    while i < |ranks|
      invariant 0 <= i <= |ranks|
      invariant count == |Filter(ranks[..i], Positive())|
      invariant count == 0 <==> forall j | 0 <= j < i :: ranks[j] == 0
      invariant count > 0 ==> least > 0 && least in ranks && forall j | 0 <= j < i :: ranks[j] == 0 || least <= ranks[j]
    {
      assert ranks[..i + 1] == ranks[..i] + [ranks[i]];
      FilterSnoc(ranks[..i], ranks[i], Positive());
      if ranks[i] > 0 {
        if count == 0 || ranks[i] < least { least := ranks[i]; }
        count := count + 1;
      }
      i := i + 1;
    }
    assert ranks[..i] == ranks;
  }

  method PrecisionLoop(ranked: seq<SourceId>, relevant: set<SourceId>) returns (sum: real)
    ensures sum == PrecisionSum(ranked, relevant, |ranked|)
  {
    var seen := 0;
    sum := 0.0;
    var rank := 0;
    while rank < |ranked|
      invariant 0 <= rank <= |ranked|
      invariant seen == Seen(ranked, relevant, rank) && sum == PrecisionSum(ranked, relevant, rank)
    {
      if ranked[rank] in relevant {
        seen := seen + 1;
        sum := sum + seen as real / (rank + 1) as real;
      }
      rank := rank + 1;
    }
  }

  function RanksOf(expected: seq<SourceId>, ranked: seq<SourceId>): seq<nat> {
    Map(expected, (id: SourceId) => RankOf(ranked, id))
  }

  lemma RanksSnoc(p: seq<SourceId>, x: SourceId, ranked: seq<SourceId>)
    ensures |Filter(RanksOf(p + [x], ranked), Positive())|
         == |Filter(RanksOf(p, ranked), Positive())| + if x in ranked then 1 else 0
  {
    assert RanksOf(p + [x], ranked) == RanksOf(p, ranked) + [RankOf(ranked, x)];
    FilterSnoc(RanksOf(p, ranked), RankOf(ranked, x), Positive());
  }

  lemma CardSnoc<T>(p: set<T>, x: T, r: set<T>)
    requires x !in p
    ensures |(p + {x}) * r| == |p * r| + if x in r then 1 else 0
  {
    if x in r {
      assert (p + {x}) * r == p * r + {x};
    } else {
      assert (p + {x}) * r == p * r;
    }
  }

  /** The expected IDs with a rank are the relevant sources retrieved. */
  lemma {:induction false} FoundCount(expected: seq<SourceId>, ranked: seq<SourceId>)
    requires Distinct(expected)
    ensures |Filter(RanksOf(expected, ranked), Positive())| == |Elements(expected) * Elements(ranked)|
  {
    if expected == [] {
      assert Elements(expected) * Elements(ranked) == {};
    } else {
      var n := |expected| - 1;
      var p, x := expected[..n], expected[n];
      assert expected == p + [x] && x !in p;
      FoundCount(p, ranked);
      RanksSnoc(p, x, ranked);
      ElementsSnoc(p, x);
      CardSnoc(Elements(p), x, Elements(ranked));
    }
  }

  /** The best expected rank is the first relevant rank. */
  lemma {:induction false} LeastRank(ranked: seq<SourceId>, relevant: set<SourceId>, least: nat, from: nat)
    requires from < least <= |ranked| && ranked[least - 1] in relevant
    requires forall i | 0 <= i < least - 1 :: ranked[i] !in relevant
    ensures ReciprocalRank(ranked, relevant, from) == Ratio(1, least)
    decreases least - from
  {
    if from < least - 1 { LeastRank(ranked, relevant, least, from + 1); }
  }

  lemma {:induction false} NoRank(ranked: seq<SourceId>, relevant: set<SourceId>, from: nat)
    requires from <= |ranked| && forall i | 0 <= i < |ranked| :: ranked[i] !in relevant
    ensures ReciprocalRank(ranked, relevant, from) == 0.0
    decreases |ranked| - from
  {
    if from < |ranked| { NoRank(ranked, relevant, from + 1); }
  }

  lemma RankListed(expected: seq<SourceId>, ranked: seq<SourceId>, i: nat)
    requires Distinct(ranked) && i < |ranked| && ranked[i] in Elements(expected)
    ensures exists j :: 0 <= j < |RanksOf(expected, ranked)| && RanksOf(expected, ranked)[j] == i + 1
  {
    var j :| 0 <= j < |expected| && expected[j] == ranked[i];
    IndexDistinct(ranked, i);
    assert RanksOf(expected, ranked)[j] == i + 1;
  }

  lemma RanksMeaning(expected: seq<SourceId>, ranked: seq<SourceId>, count: nat, least: nat)
    requires Distinct(ranked)
    requires count == 0 <==> forall i | 0 <= i < |expected| :: RanksOf(expected, ranked)[i] == 0
    requires var ranks := RanksOf(expected, ranked); count > 0 ==>
      least > 0 && least in ranks && forall i | 0 <= i < |ranks| :: ranks[i] == 0 || least <= ranks[i]
    ensures ReciprocalRank(ranked, Elements(expected), 0) == if count == 0 then 0.0 else Ratio(1, least)
    ensures count > 0 <==> exists x :: x in Elements(expected) && x in ranked
  {
    var ranks := RanksOf(expected, ranked);
    forall i | 0 <= i < |ranked| && ranked[i] in Elements(expected) ensures count > 0 && least <= i + 1 {
      RankListed(expected, ranked, i);
    }
    if count == 0 {
      NoRank(ranked, Elements(expected), 0);
      assert forall i | 0 <= i < |ranked| :: ranked[i] !in Elements(expected);
    } else {
      var j :| 0 <= j < |ranks| && ranks[j] == least;
      assert RankOf(ranked, expected[j]) == least;
      assert ranked[least - 1] == expected[j] && expected[j] in Elements(expected);
      LeastRank(ranked, Elements(expected), least, 0);
    }
  }

  lemma IndexDistinct(ranked: seq<SourceId>, i: nat)
    requires Distinct(ranked) && i < |ranked|
    ensures ranked[i] in ranked && IndexOf(ranked, ranked[i]) == i
  {
  }

  method ChunksDiffer(hits: seq<Hit>) returns (ok: bool)
    ensures ok <==> Distinct(Map(hits, (h: Hit) => h.chunkId))
  {
    var ids := Map(hits, (h: Hit) => h.chunkId);
    DistinctCount(ids);
    ok := |Elements(ids)| == |ids|;
  }

  method ScoresSorted(hits: seq<Hit>) returns (ok: bool)
    ensures ok <==> forall i | 1 <= i < |hits| :: hits[i - 1].score >= hits[i].score
  {
    ok := true;
    var i := 1;
    while i < |hits| && ok
      invariant 1 <= i
      invariant ok <==> forall j | 1 <= j < i && j < |hits| :: hits[j - 1].score >= hits[j].score
    {
      ok := !(hits[i - 1].score < hits[i].score);
      i := i + 1;
    }
  }

  /** What a case result says about a ranking, each metric by its definition. */
  ghost predicate Measures(c: Case, r: CaseResult) {
    && c.expected != [] && Distinct(r.retrieved)
    && (r.hit <==> exists x :: x in Elements(c.expected) && x in r.retrieved)
    && r.reciprocalRank == ReciprocalRank(r.retrieved, Elements(c.expected), 0)
    && (r.hitAt1 <==> r.retrieved != [] && r.retrieved[0] in c.expected)
    && NonEmpty(c.expected) != {}
    && r.recallAtK == Recall(r.retrieved, NonEmpty(c.expected))
    && r.averagePrecision == AveragePrecision(r.retrieved, NonEmpty(c.expected))
    && r.expectedRanks == RanksOf(c.expected, r.retrieved)
    && r.forbiddenHitCount == |Elements(r.retrieved) * Elements(c.forbidden)|
    && (r.forbiddenAt1 <==> r.retrieved != [] && r.retrieved[0] in c.forbidden)
  }

  function NonEmpty(expected: seq<SourceId>): (r: set<SourceId>)
    ensures r == Elements(expected)
    ensures expected != [] ==> r != {}
  {
    assert expected != [] ==> expected[0] in Elements(expected);
    Elements(expected)
  }

  /** The ranks of the expected IDs, their best and their number. */
  method Expected(c: Case, ranked: seq<SourceId>) returns (ranks: seq<nat>, found: nat, reciprocal: real)
    requires ValidCase(c) && Distinct(ranked)
    ensures ranks == RanksOf(c.expected, ranked)
    ensures found == |Elements(c.expected) * Elements(ranked)|
    ensures found > 0 <==> exists x :: x in Elements(c.expected) && x in ranked
    ensures reciprocal == ReciprocalRank(ranked, Elements(c.expected), 0)
  {
    var table := RankTable(ranked);
    ranks := Map(c.expected, (id: SourceId) => if id in table then table[id] else 0);
    assert ranks == RanksOf(c.expected, ranked) by {
      forall i | 0 <= i < |ranks| ensures ranks[i] == RankOf(ranked, c.expected[i]) {
        assert c.expected[i] in table <==> c.expected[i] in Elements(ranked);
      }
    }
    var least: nat;
    found, least := FoundRanks(ranks);
    FoundCount(c.expected, ranked);
    RanksMeaning(c.expected, ranked, found, least);
    reciprocal := if found == 0 then 0.0 else 1.0 / least as real;
  }

  /** `_case_result`. */
  method Judge(c: Case, hits: seq<Hit>, topK: nat) returns (r: Result<CaseResult>)
    requires ValidCase(c)
    ensures r.Ok? <==> HitsAccepted(hits)
    ensures r.Ok? ==> r.value.retrieved == Ranked(hits, topK) && Measures(c, r.value)
  {
    var apart := ChunksDiffer(hits);
    var sorted := ScoresSorted(hits);
    if !apart {
      r := Err("vector store returned duplicate chunk hits");
    } else if !sorted {
      r := Err("vector store returned unsorted search hits");
    } else {
      var ranked := Ranked(hits, topK);
      RankedDistinct(hits, topK);
      var ranks, found, reciprocal := Expected(c, ranked);
      var relevant := NonEmpty(c.expected);
      DistinctCount(c.expected);
      var sum := PrecisionLoop(ranked, relevant);
      r := Ok(CaseResult(
        ranked, found > 0, reciprocal, ranked != [] && ranked[0] in c.expected,
        found as real / |c.expected| as real, sum / |relevant| as real, ranks,
        |Elements(ranked) * Elements(c.forbidden)|, ranked != [] && ranked[0] in c.forbidden));
    }
  }

  // ----- what every case result satisfies

  /** A case result measures some case over some ranking. */
  ghost predicate Genuine(r: CaseResult) {
    exists c :: ValidCase(c) && Measures(c, r)
  }

  function Bit(b: bool): real {
    if b then 1.0 else 0.0
  }

  lemma GenuineBounds(r: CaseResult)
    requires Genuine(r)
    ensures 0.0 <= r.averagePrecision <= r.recallAtK <= Bit(r.hit) <= 1.0
    ensures Bit(r.hitAt1) <= r.reciprocalRank <= Bit(r.hit)
    ensures Bit(r.forbiddenAt1) <= Bit(r.forbiddenHitCount > 0)
    ensures Bit(r.forbiddenAt1) + Bit(r.hitAt1) <= 1.0
  {
    var c :| ValidCase(c) && Measures(c, r);
    var relevant := NonEmpty(c.expected);
    MetricsOrdered(r.retrieved, relevant);
    PositiveTogether(r.retrieved, relevant);
    ReciprocalBounds(r.retrieved, relevant, 0);
    if r.hitAt1 { TopRank(c, r); }
    if r.forbiddenAt1 {
      assert r.retrieved[0] in Elements(r.retrieved) * Elements(c.forbidden);
      assert r.retrieved[0] in Elements(c.forbidden);
      assert forall x :: x in c.expected ==> x in Elements(c.expected);
    }
  }

  lemma TopRank(c: Case, r: CaseResult)
    requires ValidCase(c) && Measures(c, r) && r.hitAt1
    ensures r.reciprocalRank == 1.0 && r.hit
  {
  }

  // ----- the aggregate

  function Sum(results: seq<CaseResult>, f: CaseResult -> real): real {
    if results == [] then 0.0 else Sum(results[..|results| - 1], f) + f(results[|results| - 1])
  }

  lemma {:induction false} SumOrder(results: seq<CaseResult>, f: CaseResult -> real, g: CaseResult -> real)
    requires forall r | r in results :: f(r) <= g(r)
    ensures Sum(results, f) <= Sum(results, g)
  {
    if results != [] {
      var n := |results| - 1;
      assert results[n] in results && forall r | r in results[..n] :: r in results;
      SumOrder(results[..n], f, g);
    }
  }

  lemma {:induction false} SumConstant(results: seq<CaseResult>, x: real)
    ensures Sum(results, (r: CaseResult) => x) == x * |results| as real
  {
    if results != [] { SumConstant(results[..|results| - 1], x); }
  }

  lemma {:induction false} SumAdds(results: seq<CaseResult>, f: CaseResult -> real, g: CaseResult -> real)
    ensures Sum(results, f) + Sum(results, g) == Sum(results, (r: CaseResult) => f(r) + g(r))
  {
    if results != [] { SumAdds(results[..|results| - 1], f, g); }
  }

  function Mean(results: seq<CaseResult>, f: CaseResult -> real): real
    requires results != []
  {
    Sum(results, f) / |results| as real
  }

  datatype Aggregate = Aggregate(
    hitCount: nat, hitAt1Count: nat, hitRate: real, hitRateAt1: real, meanReciprocalRank: real, meanRecall: real,
    meanAveragePrecision: real, forbiddenHitCount: nat, forbiddenCaseRate: real, forbiddenAt1Count: nat,
    forbiddenAt1CaseRate: real)

  function Hits(): CaseResult -> real { (r: CaseResult) => Bit(r.hit) }
  function HitsAt1(): CaseResult -> real { (r: CaseResult) => Bit(r.hitAt1) }
  function Reciprocals(): CaseResult -> real { (r: CaseResult) => r.reciprocalRank }
  function Recalls(): CaseResult -> real { (r: CaseResult) => r.recallAtK }
  function Averages(): CaseResult -> real { (r: CaseResult) => r.averagePrecision }
  function ForbiddenHits(): CaseResult -> real { (r: CaseResult) => r.forbiddenHitCount as real }
  function ForbiddenCases(): CaseResult -> real { (r: CaseResult) => Bit(r.forbiddenHitCount > 0) }
  function ForbiddenTops(): CaseResult -> real { (r: CaseResult) => Bit(r.forbiddenAt1) }

  function WasHit(): CaseResult -> bool { (r: CaseResult) => r.hit }
  function WasHitAt1(): CaseResult -> bool { (r: CaseResult) => r.hitAt1 }
  function SawForbidden(): CaseResult -> bool { (r: CaseResult) => r.forbiddenHitCount >= 1 }
  function ForbiddenFirst(): CaseResult -> bool { (r: CaseResult) => r.forbiddenAt1 }

  lemma {:induction false} BitsCount(results: seq<CaseResult>, f: CaseResult -> real, keep: CaseResult -> bool)
    requires forall r | r in results :: f(r) == Bit(keep(r))
    ensures Sum(results, f) == |Filter(results, keep)| as real
  {
    if results != [] {
      var n := |results| - 1;
      assert results == results[..n] + [results[n]];
      assert forall r | r in results[..n] :: r in results;
      BitsCount(results[..n], f, keep);
      FilterSnoc(results[..n], results[n], keep);
    }
  }

  /** Four of the sums are numbers of cases: those that hit, hit at rank one, retrieved a forbidden source,
      and retrieved one first. */
  lemma CaseCounts(results: seq<CaseResult>)
    ensures Sum(results, Hits()) == |Filter(results, WasHit())| as real
    ensures Sum(results, HitsAt1()) == |Filter(results, WasHitAt1())| as real
    ensures Sum(results, ForbiddenCases()) == |Filter(results, SawForbidden())| as real
    ensures Sum(results, ForbiddenTops()) == |Filter(results, ForbiddenFirst())| as real
  {
    BitsCount(results, Hits(), WasHit());
    BitsCount(results, HitsAt1(), WasHitAt1());
    BitsCount(results, ForbiddenCases(), SawForbidden());
    BitsCount(results, ForbiddenTops(), ForbiddenFirst());
  }

  /** `_aggregate`: division by zero on no results. */
  method Summarize(results: seq<CaseResult>) returns (a: Result<Aggregate>)
    ensures a.Ok? <==> results != []
    ensures a.Ok? ==>
      && a.value.hitCount as real == Sum(results, Hits()) && a.value.hitAt1Count as real == Sum(results, HitsAt1())
      && a.value.forbiddenHitCount as real == Sum(results, ForbiddenHits())
      && a.value.forbiddenAt1Count as real == Sum(results, ForbiddenTops())
      && a.value.hitRate == Mean(results, Hits()) && a.value.hitRateAt1 == Mean(results, HitsAt1())
      && a.value.meanReciprocalRank == Mean(results, Reciprocals()) && a.value.meanRecall == Mean(results, Recalls())
      && a.value.meanAveragePrecision == Mean(results, Averages())
      && a.value.forbiddenCaseRate == Mean(results, ForbiddenCases())
      && a.value.forbiddenAt1CaseRate == Mean(results, ForbiddenTops())
  {
    var hit, top, forbidden, forbiddenCases, forbiddenTops := 0, 0, 0, 0, 0;
    var rr, recall, ap := 0.0, 0.0, 0.0;
    var i := 0;
    while i < |results|
      invariant 0 <= i <= |results|
      invariant hit as real == Sum(results[..i], Hits()) && top as real == Sum(results[..i], HitsAt1())
      invariant rr == Sum(results[..i], Reciprocals()) && recall == Sum(results[..i], Recalls())
      invariant ap == Sum(results[..i], Averages()) && forbiddenCases as real == Sum(results[..i], ForbiddenCases())
      invariant forbiddenTops as real == Sum(results[..i], ForbiddenTops())
      invariant forbidden as real == Sum(results[..i], ForbiddenHits())
      invariant hit >= 0 && top >= 0 && forbidden >= 0 && forbiddenTops >= 0
    {
      var r := results[i];
      assert results[..i + 1][..i] == results[..i];
      hit := hit + if r.hit then 1 else 0;
      top := top + if r.hitAt1 then 1 else 0;
      rr := rr + r.reciprocalRank;
      recall := recall + r.recallAtK;
      ap := ap + r.averagePrecision;
      forbidden := forbidden + r.forbiddenHitCount;
      forbiddenCases := forbiddenCases + if r.forbiddenHitCount > 0 then 1 else 0;
      forbiddenTops := forbiddenTops + if r.forbiddenAt1 then 1 else 0;
      i := i + 1;
    }
    assert results[..i] == results;
    if results == [] {
      a := Err("division by zero");
    } else {
      var count := |results| as real;
      a := Ok(Aggregate(
        hit, top, hit as real / count, top as real / count, rr / count, recall / count, ap / count,
        forbidden, forbiddenCases as real / count, forbiddenTops, forbiddenTops as real / count));
    }
  }

  lemma MeanOrder(results: seq<CaseResult>, f: CaseResult -> real, g: CaseResult -> real)
    requires results != [] && forall r | r in results :: f(r) <= g(r)
    ensures Mean(results, f) <= Mean(results, g)
  {
    SumOrder(results, f, g);
    DivisionOrder(Sum(results, f), Sum(results, g), |results| as real);
  }

  lemma MeanConstant(results: seq<CaseResult>, x: real)
    requires results != []
    ensures Mean(results, (r: CaseResult) => x) == x
  {
    SumConstant(results, x);
  }

  /** Over genuine results: hit@1 <= MRR <= hit rate, MAP <= mean recall <= hit rate, everything
      between zero and one, and a forbidden top result excludes a hit at one. */
  lemma AggregateOrdered(results: seq<CaseResult>)
    requires results != [] && forall r | r in results :: Genuine(r)
    ensures 0.0 <= Mean(results, HitsAt1()) <= Mean(results, Reciprocals()) <= Mean(results, Hits()) <= 1.0
    ensures 0.0 <= Mean(results, Averages()) <= Mean(results, Recalls()) <= Mean(results, Hits())
    ensures 0.0 <= Mean(results, ForbiddenTops()) <= Mean(results, ForbiddenCases()) <= 1.0
    ensures Mean(results, ForbiddenTops()) + Mean(results, HitsAt1()) <= 1.0
  {
    forall r | r in results
      ensures 0.0 <= r.averagePrecision <= r.recallAtK <= Bit(r.hit) && Bit(r.hitAt1) <= r.reciprocalRank <= Bit(r.hit)
      ensures Bit(r.forbiddenAt1) <= Bit(r.forbiddenHitCount > 0) && Bit(r.forbiddenAt1) + Bit(r.hitAt1) <= 1.0
    {
      GenuineBounds(r);
    }
    var zero, one := (r: CaseResult) => 0.0, (r: CaseResult) => 1.0;
    MeanConstant(results, 0.0);
    MeanConstant(results, 1.0);
    MeanOrder(results, zero, HitsAt1());
    MeanOrder(results, HitsAt1(), Reciprocals());
    MeanOrder(results, Reciprocals(), Hits());
    MeanOrder(results, Hits(), one);
    MeanOrder(results, zero, Averages());
    MeanOrder(results, Averages(), Recalls());
    MeanOrder(results, Recalls(), Hits());
    MeanOrder(results, zero, ForbiddenTops());
    MeanOrder(results, ForbiddenTops(), ForbiddenCases());
    MeanOrder(results, ForbiddenCases(), one);
    TopsExclude(results);
  }

  lemma TopsExclude(results: seq<CaseResult>)
    requires results != [] && forall r | r in results :: Bit(r.forbiddenAt1) + Bit(r.hitAt1) <= 1.0
    ensures Mean(results, ForbiddenTops()) + Mean(results, HitsAt1()) <= 1.0
  {
    var both := (r: CaseResult) => ForbiddenTops()(r) + HitsAt1()(r);
    var one := (r: CaseResult) => 1.0;
    SumAdds(results, ForbiddenTops(), HitsAt1());
    assert Sum(results, both) <= Sum(results, one) by { SumOrder(results, both, one); }
    SumConstant(results, 1.0);
    var n := |results| as real;
    QuotientAdds(Sum(results, ForbiddenTops()), Sum(results, HitsAt1()), n);
    DivisionOrder(Sum(results, ForbiddenTops()) + Sum(results, HitsAt1()), n, n);
    QuotientOne(n, n);
  }

  lemma QuotientAdds(x: real, y: real, d: real)
    requires d > 0.0
    ensures x / d + y / d == (x + y) / d
  {
  }
}
