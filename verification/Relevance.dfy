/** Keyword overlap, the combined relevance score, and choosing the best memories. */
module Relevance {
  import opened Options
  import opened Reals
  import opened Similarity

  /** The tokens two texts share, counted with multiplicity. */
  function Shared(query: seq<string>, target: seq<string>): nat {
    |multiset(query) * multiset(target)|
  }

  function RealQuotient(x: real, y: real): real { if y == 0.0 then 0.0 else x / y }

  /** `root` is the square root of the product of the two token counts. */
  function KeywordScore(query: seq<string>, target: seq<string>, root: real): real {
    if query == [] || target == [] then 0.0 else RealQuotient(Shared(query, target) as real, root)
  }

  /** The source's sum over the distinct query tokens of the smaller of the two counts. */
  method Overlap(query: seq<string>, target: seq<string>) returns (overlap: nat)
    ensures overlap == Shared(query, target)
  {
    var queryCounts, targetCounts := multiset(query), multiset(target);
    var keys := set token | token in query;
    ghost var rest := queryCounts * targetCounts;
    overlap := 0;
    while keys != {}
      invariant forall token :: token in rest ==> token in keys
      invariant forall token :: token in keys ==> rest[token] == (queryCounts * targetCounts)[token]
      invariant overlap + |rest| == |queryCounts * targetCounts|
      decreases keys
    {
      var token :| token in keys;
      var count := if queryCounts[token] < targetCounts[token] then queryCounts[token] else targetCounts[token];
      assert rest[token] == count;
      overlap := overlap + count;
      rest := rest[token := 0];
      keys := keys - {token};
    }
    assert rest == multiset{};
  }

  lemma SubmultisetSize<T>(a: multiset<T>, b: multiset<T>)
    requires a <= b
    ensures |a| <= |b|
  {
    assert b == a + (b - a);
  }

  /** The overlap squared is at most the product of the two lengths. */
  lemma OverlapBound(query: seq<string>, target: seq<string>)
    ensures Shared(query, target) <= |query| && Shared(query, target) <= |target|
    ensures Shared(query, target) * Shared(query, target) <= |query| * |target|
  {
    var shared := multiset(query) * multiset(target);
    SubmultisetSize(shared, multiset(query));
    SubmultisetSize(shared, multiset(target));
    ProductOrder(|shared|, |query|, |target|);
  }

  lemma ProductOrder(x: nat, y: nat, z: nat)
    requires x <= y && x <= z
    ensures x * x <= y * z
  {
    assert x * x <= x * z by { assert x * (z - x) >= 0; }
    assert x * z <= y * z by { assert (y - x) * z >= 0; }
  }

  /** So the keyword score never exceeds one. */
  lemma KeywordScoreRange(query: seq<string>, target: seq<string>, root: real)
    requires IsRoot(root, (|query| * |target|) as real)
    ensures 0.0 <= KeywordScore(query, target, root) <= 1.0
  {
    if query != [] && target != [] {
      OverlapBound(query, target);
      var shared := Shared(query, target) as real;
      assert shared * shared <= root * root by {
        assert shared * shared == (Shared(query, target) * Shared(query, target)) as real;
      }
      OrderFromSquares(shared, root);
      if root != 0.0 {
        QuotientRange(shared, root);
      }
    }
  }

  /** A text overlaps itself fully. */
  lemma SelfOverlapIsFull(query: seq<string>, root: real)
    requires query != [] && IsRoot(root, (|query| * |query|) as real)
    ensures KeywordScore(query, query, root) == 1.0
  {
    var count := |query| as real;
    assert multiset(query) * multiset(query) == multiset(query);
    assert Shared(query, query) as real == count;
    RootOfSquare(count, root, (|query| * |query|) as real);
    OverItself(count, root);
  }

  lemma RootOfSquare(count: real, root: real, square: real)
    requires count >= 0.0 && square == count * count && IsRoot(root, square)
    ensures root == count
  {
    OrderFromSquares(count, root);
    OrderFromSquares(root, count);
  }

  lemma OverItself(x: real, y: real)
    requires x == y && y != 0.0
    ensures RealQuotient(x, y) == 1.0
  {
  }

  // ---- The combined score ----

  datatype Weights = Weights(vector: real, keyword: real, freshness: real)

  const DEFAULT_WEIGHTS := Weights(0.6, 0.25, 0.15)

  ghost predicate Convex(w: Weights) {
    w.vector >= 0.0 && w.keyword >= 0.0 && w.freshness >= 0.0 && w.vector + w.keyword + w.freshness == 1.0
  }

  /** A memory with its embedding similarity, the tokens of its content, the root of the product of
      token counts, and the weight of its age. */
  datatype Record = Record(id: string, vector: real, tokens: seq<string>, root: real, freshness: real)

  function Weigh(w: Weights, vector: real, keyword: real, freshness: real): real {
    w.vector * vector + w.keyword * keyword + w.freshness * freshness
  }

  function Combined(query: seq<string>, record: Record, w: Weights): real {
    Weigh(w, record.vector, KeywordScore(query, record.tokens, record.root), record.freshness)
  }

  lemma WeightedPart(weight: real, x: real) returns (part: real)
    requires weight >= 0.0 && 0.0 <= x <= 1.0
    ensures part == weight * x && 0.0 <= part <= weight
  {
    part := weight * x;
    assert (1.0 - x) * weight >= 0.0;
  }

  // ---- Where the vector and freshness parts come from ----

  /** A text as the embedding sees it: the buckets of its tokens, the norm of their counts, and the
      norm of the embedding itself. */
  datatype Embedded = Embedded(buckets: seq<nat>, root: real, norm: real)

  function Vector(e: Embedded, dimension: nat): seq<real> {
    Scaled(Counts(e.buckets, dimension), NormOrOne(e.root))
  }

  ghost predicate IsEmbedding(e: Embedded, dimension: nat) {
    && (forall i :: 0 <= i < |e.buckets| ==> e.buckets[i] < dimension)
    && IsRoot(e.root, Dot(Counts(e.buckets, dimension), Counts(e.buckets, dimension)))
    && IsRoot(e.norm, Dot(Vector(e, dimension), Vector(e, dimension)))
  }

  /** The score that the search gives a memory: the similarity of its embedding to the query's. */
  function VectorScore(query: Embedded, memory: Embedded, dimension: nat): real
    requires query.norm >= 0.0 && memory.norm >= 0.0
  {
    Cosine(Vector(query, dimension), Vector(memory, dimension), query.norm, memory.norm)
  }

  lemma VectorScoreRange(query: Embedded, memory: Embedded, dimension: nat)
    requires IsEmbedding(query, dimension) && IsEmbedding(memory, dimension)
    ensures 0.0 <= VectorScore(query, memory, dimension) <= 1.0
  {
    EmbeddingIsUnit(query.buckets, dimension, query.root);
    EmbeddingIsUnit(memory.buckets, dimension, memory.root);
    EmbeddingCosineRange(Vector(query, dimension), Vector(memory, dimension), query.norm, memory.norm);
  }

  /** `halving(x)` stands for one half to the power of x. */
  ghost predicate IsHalving(halving: real -> real) {
    forall x :: x >= 0.0 ==> 0.0 < halving(x) <= 1.0
  }

  /** A memory without a readable time stamp weighs one half; one from the future is as good as new. */
  function AgeWeight(days: Option<real>, halfLife: real, halving: real -> real): real {
    if days.None? then 0.5 else halving(Max(0.0, days.value) / Max(0.1, halfLife))
  }

  lemma AgeWeightRange(days: Option<real>, halfLife: real, halving: real -> real)
    requires IsHalving(halving)
    ensures 0.0 < AgeWeight(days, halfLife, halving) <= 1.0
  {
    if days.Some? {
      QuotientNonNegative(Max(0.0, days.value), Max(0.1, halfLife));
    }
  }

  /** Every combined score lies between 0 and 1: the vector part is the similarity of two embeddings
      and the freshness part an age weight. */
  lemma CombinedRange(tokens: seq<string>, query: Embedded, record: Record, memory: Embedded, dimension: nat,
                      days: Option<real>, halfLife: real, halving: real -> real, w: Weights)
    requires Convex(w) && IsRoot(record.root, (|tokens| * |record.tokens|) as real)
    requires IsEmbedding(query, dimension) && IsEmbedding(memory, dimension) && IsHalving(halving)
    requires record.vector == VectorScore(query, memory, dimension)
    requires record.freshness == AgeWeight(days, halfLife, halving)
    ensures 0.0 <= Combined(tokens, record, w) <= 1.0
  {
    KeywordScoreRange(tokens, record.tokens, record.root);
    VectorScoreRange(query, memory, dimension);
    AgeWeightRange(days, halfLife, halving);
    WeightedSum(w, record.vector, KeywordScore(tokens, record.tokens, record.root), record.freshness);
  }

  lemma DefaultsAreConvex()
    ensures Convex(DEFAULT_WEIGHTS)
  {
  }

  lemma WeightedSum(w: Weights, x: real, y: real, z: real)
    requires Convex(w) && 0.0 <= x <= 1.0 && 0.0 <= y <= 1.0 && 0.0 <= z <= 1.0
    ensures 0.0 <= Weigh(w, x, y, z) <= 1.0
  {
    var a := WeightedPart(w.vector, x);
    var b := WeightedPart(w.keyword, y);
    var c := WeightedPart(w.freshness, z);
    assert 0.0 <= a + b + c <= 1.0;
  }

  // ---- Ranking ----

  datatype Scored = Scored(record: Record, score: real)

  /** Stable insertion: before the first entry that scores strictly less. */
  function Insert(sorted: seq<Scored>, x: Scored): seq<Scored> {
    if sorted == [] || sorted[0].score < x.score then [x] + sorted
    else [sorted[0]] + Insert(sorted[1..], x)
  }

  /** Sorting by descending score; equal scores keep their order. */
  function Ranked(xs: seq<Scored>): seq<Scored> {
    if xs == [] then [] else Insert(Ranked(xs[..|xs| - 1]), xs[|xs| - 1])
  }

  ghost predicate Descending(xs: seq<Scored>) {
    forall i, j :: 0 <= i < j < |xs| ==> xs[i].score >= xs[j].score
  }

  lemma ConsDescending(first: Scored, rest: seq<Scored>)
    requires Descending(rest) && forall y :: y in rest ==> first.score >= y.score
    ensures Descending([first] + rest)
  {
    var xs := [first] + rest;
    forall i, j | 0 <= i < j < |xs| ensures xs[i].score >= xs[j].score {
      assert xs[j] == rest[j - 1] && rest[j - 1] in rest;
      assert i > 0 ==> xs[i] == rest[i - 1];
    }
  }

  lemma {:induction false} InsertKeepsOrder(sorted: seq<Scored>, x: Scored)
    requires Descending(sorted)
    ensures Descending(Insert(sorted, x)) && multiset(Insert(sorted, x)) == multiset(sorted) + multiset{x}
    ensures forall y :: y in Insert(sorted, x) ==> y in sorted || y == x
  {
    if sorted != [] && sorted[0].score >= x.score {
      var first, rest := sorted[0], sorted[1..];
      assert sorted == [first] + rest;
      InsertKeepsOrder(rest, x);
      ConsDescending(first, Insert(rest, x));
    } else {
      ConsDescending(x, sorted);
    }
  }

  lemma {:induction false} RankedIsSorted(xs: seq<Scored>)
    ensures Descending(Ranked(xs)) && multiset(Ranked(xs)) == multiset(xs)
  {
    if xs != [] {
      var front, last := xs[..|xs| - 1], xs[|xs| - 1];
      RankedIsSorted(front);
      InsertKeepsOrder(Ranked(front), last);
      assert xs == front + [last];
    }
  }

  function AtLeast(xs: seq<Scored>, least: real): seq<Scored> {
    if xs == [] then []
    else (if xs[0].score >= least then [xs[0]] else []) + AtLeast(xs[1..], least)
  }

  function ScoreAll(query: seq<string>, records: seq<Record>, w: Weights): (scored: seq<Scored>)
    ensures |scored| == |records|
    ensures forall i :: 0 <= i < |records| ==> scored[i] == Scored(records[i], Combined(query, records[i], w))
  {
    seq(|records|, i requires 0 <= i < |records| => Scored(records[i], Combined(query, records[i], w)))
  }

  method ScoreRecords(query: seq<string>, records: seq<Record>, w: Weights) returns (scored: seq<Scored>)
    ensures scored == Ranked(ScoreAll(query, records, w))
  {
    scored := [];
    for i := 0 to |records|
      invariant scored == ScoreAll(query, records, w)[..i]
    {
      var record := records[i];
      var keyword := 0.0;
      if query != [] && record.tokens != [] {
        var overlap := Overlap(query, record.tokens);
        keyword := RealQuotient(overlap as real, record.root);
      }
      assert keyword == KeywordScore(query, record.tokens, record.root);
      var combined := Weigh(w, record.vector, keyword, record.freshness);
      scored := scored + [Scored(record, combined)];
    }
    assert ScoreAll(query, records, w)[..|records|] == ScoreAll(query, records, w);
    scored := Ranked(scored);
  }

  function Relevant(scored: seq<Scored>, least: real, top: nat): seq<Scored> {
    var good := AtLeast(Ranked(scored), least);
    if |good| > top then good[..top] else good
  }

  method FindRelevant(query: seq<string>, records: seq<Record>, w: Weights, top: nat, least: real)
    returns (found: seq<Record>)
    ensures var best := Relevant(ScoreAll(query, records, w), least, top);
            found == seq(|best|, i requires 0 <= i < |best| => best[i].record)
  {
    var scored := ScoreRecords(query, records, w);
    var good := AtLeast(scored, least);
    if |good| > top {
      good := good[..top];
    }
    found := seq(|good|, i requires 0 <= i < |good| => good[i].record);
  }

  lemma {:induction false} AtLeastKeepsOrder(xs: seq<Scored>, least: real)
    requires Descending(xs)
    ensures var good := AtLeast(xs, least);
            && good <= xs
            && (forall i :: 0 <= i < |xs| ==> (xs[i].score >= least <==> i < |good|))
  {
    if xs != [] {
      AtLeastKeepsOrder(xs[1..], least);
      var rest := AtLeast(xs[1..], least);
      forall i | 0 <= i < |xs| ensures xs[i].score >= least <==> i < |AtLeast(xs, least)| {
        if i > 0 {
          assert xs[i] == xs[1..][i - 1];
        } else {
          assert rest != [] ==> xs[1..][0].score >= least;
        }
      }
      if xs[0].score < least {
        assert xs[1..] != [] ==> xs[1..][0].score < least;
        assert rest == [];
      } else {
        assert xs == [xs[0]] + xs[1..];
      }
    }
  }

  /** In descending order, all good enough, as many as asked for or as there are, and nothing left
      out outranks anything returned. */
  ghost predicate IsTopOf(best: seq<Scored>, scored: seq<Scored>, least: real, top: nat) {
    var left := multiset(scored) - multiset(best);
    && Descending(best)
    && multiset(best) <= multiset(scored)
    && (forall x :: x in best ==> x.score >= least)
    && |best| <= top
    && (|best| < top ==> forall y :: y in left ==> y.score < least)
    && (forall x, y :: x in best && y in left ==> x.score >= y.score)
  }

  /** The result is the top of the ranking. */
  lemma RelevantIsTopK(scored: seq<Scored>, least: real, top: nat)
    ensures IsTopOf(Relevant(scored, least, top), scored, least, top)
  {
    var all, best := Ranked(scored), Relevant(scored, least, top);
    RankedIsSorted(scored);
    BestIsPrefix(all, best, least, top);
    PrefixIsTop(scored, all, best, all[|best|..], least, top);
  }

  lemma BestIsPrefix(all: seq<Scored>, best: seq<Scored>, least: real, top: nat)
    requires Descending(all)
    requires var good := AtLeast(all, least); best == if |good| > top then good[..top] else good
    ensures best <= all && all == best + all[|best|..] && |best| <= top
    ensures forall i :: 0 <= i < |best| ==> all[i].score >= least
    ensures |best| < top ==> forall i :: |best| <= i < |all| ==> all[i].score < least
  {
    AtLeastKeepsOrder(all, least);
  }

  lemma PrefixIsTop(scored: seq<Scored>, all: seq<Scored>, best: seq<Scored>, dropped: seq<Scored>,
                    least: real, top: nat)
    requires Descending(all) && multiset(all) == multiset(scored) && all == best + dropped && |best| <= top
    requires forall i :: 0 <= i < |best| ==> all[i].score >= least
    requires |best| < top ==> forall i :: |best| <= i < |all| ==> all[i].score < least
    ensures IsTopOf(best, scored, least, top)
  {
    LeftOver(scored, all, best, dropped);
    SplitsByRank(all, best, dropped, least);
  }

  lemma LeftOver(scored: seq<Scored>, all: seq<Scored>, best: seq<Scored>, dropped: seq<Scored>)
    requires all == best + dropped && multiset(all) == multiset(scored)
    ensures multiset(best) <= multiset(scored)
    ensures forall y :: y in multiset(scored) - multiset(best) <==> y in dropped
  {
    assert multiset(all) == multiset(best) + multiset(dropped);
    assert multiset(scored) - multiset(best) == multiset(dropped);
  }

  /** Splitting a descending sequence puts everything of the first part at or above the second. */
  lemma SplitsByRank(all: seq<Scored>, best: seq<Scored>, dropped: seq<Scored>, least: real)
    requires Descending(all) && all == best + dropped
    requires forall i :: 0 <= i < |best| ==> all[i].score >= least
    ensures Descending(best)
    ensures forall x :: x in best ==> x.score >= least
    ensures forall x, y :: x in best && y in dropped ==> x.score >= y.score
    ensures forall y :: y in dropped ==> exists j :: |best| <= j < |all| && all[j] == y
  {
    forall x, y | x in best && y in dropped ensures x.score >= y.score {
      var i :| 0 <= i < |best| && best[i] == x;
      var j :| 0 <= j < |dropped| && dropped[j] == y;
      assert all[i] == x && all[|best| + j] == y;
    }
    forall i, j | 0 <= i < j < |best| ensures best[i].score >= best[j].score {
      assert best[i] == all[i] && best[j] == all[j];
    }
    forall x | x in best ensures x.score >= least {
      var i :| 0 <= i < |best| && best[i] == x;
      assert all[i] == x;
    }
    forall y | y in dropped ensures exists j :: |best| <= j < |all| && all[j] == y {
      var j :| 0 <= j < |dropped| && dropped[j] == y;
      assert all[|best| + j] == y;
    }
  }

  // ---- Which part weighs what ----

  /** A change of the similarity counts with the vector weight, */
  lemma VectorWeighs(query: seq<string>, record: Record, w: Weights, vector: real)
    ensures Combined(query, record.(vector := vector), w) - Combined(query, record, w)
            == w.vector * (vector - record.vector)
  {
  }

  /** a change of the age weight with the freshness weight, */
  lemma FreshnessWeighs(query: seq<string>, record: Record, w: Weights, freshness: real)
    ensures Combined(query, record.(freshness := freshness), w) - Combined(query, record, w)
            == w.freshness * (freshness - record.freshness)
  {
  }

  /** a change of the keyword score with the keyword weight, */
  lemma KeywordsWeigh(query: seq<string>, a: Record, b: Record, w: Weights)
    requires a.vector == b.vector && a.freshness == b.freshness
    ensures Combined(query, a, w) - Combined(query, b, w)
            == w.keyword * (KeywordScore(query, a.tokens, a.root) - KeywordScore(query, b.tokens, b.root))
  {
    Distribute(w.keyword, KeywordScore(query, a.tokens, a.root), KeywordScore(query, b.tokens, b.root));
  }

  lemma Distribute(w: real, x: real, y: real)
    ensures w * x - w * y == w * (x - y)
  {
  }

  /** and what has none of the three scores nothing. */
  lemma NothingScoresNothing(query: seq<string>, record: Record, w: Weights)
    requires record.vector == 0.0 && record.freshness == 0.0 && Shared(query, record.tokens) == 0
    ensures Combined(query, record, w) == 0.0
  {
    ZeroQuotient(record.root);
  }

  lemma ZeroQuotient(y: real)
    ensures RealQuotient(0.0, y) == 0.0
  {
    if y != 0.0 {
      var q := 0.0 / y;
      assert q * y == 0.0;
    }
  }

  /** The keyword score times the root is the overlap. */
  lemma ScoreTimesRoot(query: seq<string>, target: seq<string>, root: real)
    requires query != [] && target != [] && root != 0.0
    ensures KeywordScore(query, target, root) * root == Shared(query, target) as real
  {
  }

  /** As shipped, a memory matched only by meaning scores 0.6, one matched only by keywords 0.25, and one
      that is only fresh 0.15. */
  lemma ShippedWeights(query: seq<string>, meant: Record, worded: Record, recent: Record)
    requires meant.vector == 1.0 && Shared(query, meant.tokens) == 0 && meant.freshness == 0.0
    requires worded.vector == 0.0 && KeywordScore(query, worded.tokens, worded.root) == 1.0 && worded.freshness == 0.0
    requires recent.vector == 0.0 && Shared(query, recent.tokens) == 0 && recent.freshness == 1.0
    ensures Combined(query, meant, DEFAULT_WEIGHTS) == 0.6
    ensures Combined(query, worded, DEFAULT_WEIGHTS) == 0.25
    ensures Combined(query, recent, DEFAULT_WEIGHTS) == 0.15
  {
    ZeroQuotient(meant.root);
    ZeroQuotient(recent.root);
  }

  /** So wherever both are found, the one matched by meaning comes first. */
  lemma MeaningOutranksWords(query: seq<string>, records: seq<Record>, least: real, top: nat,
                             meant: Record, worded: Record, i: nat, j: nat)
    requires meant.vector == 1.0 && Shared(query, meant.tokens) == 0 && meant.freshness == 0.0
    requires worded.vector == 0.0 && KeywordScore(query, worded.tokens, worded.root) == 1.0 && worded.freshness == 0.0
    requires var best := Relevant(ScoreAll(query, records, DEFAULT_WEIGHTS), least, top);
             i < |best| && j < |best| && best[i].record == meant && best[j].record == worded
    ensures i < j
  {
    var scored := ScoreAll(query, records, DEFAULT_WEIGHTS);
    var best := Relevant(scored, least, top);
    RelevantIsTopK(scored, least, top);
    ShippedWeights(query, meant, worded, Record("", 0.0, [], 0.0, 1.0));
    IsScored(query, records, DEFAULT_WEIGHTS, best[i]);
    IsScored(query, records, DEFAULT_WEIGHTS, best[j]);
  }

  lemma IsScored(query: seq<string>, records: seq<Record>, w: Weights, x: Scored)
    requires x in multiset(ScoreAll(query, records, w))
    ensures x.score == Combined(query, x.record, w)
  {
  }

  // ---- Ties ----

  function WithScore(xs: seq<Scored>, score: real): seq<Scored> {
    if xs == [] then [] else (if xs[0].score == score then [xs[0]] else []) + WithScore(xs[1..], score)
  }

  lemma WithScoreCons(first: Scored, rest: seq<Scored>, score: real)
    ensures WithScore([first] + rest, score)
      == (if first.score == score then [first] else []) + WithScore(rest, score)
  {
    assert ([first] + rest)[1..] == rest;
  }

  lemma {:induction false} WithScoreOfConcat(a: seq<Scored>, b: seq<Scored>, score: real)
    ensures WithScore(a + b, score) == WithScore(a, score) + WithScore(b, score)
  {
    if a == [] {
      assert a + b == b;
    } else {
      WithScoreOfConcat(a[1..], b, score);
      WithScoreCons(a[0], a[1..], score);
      WithScoreCons(a[0], a[1..] + b, score);
      assert a == [a[0]] + a[1..] && a + b == [a[0]] + (a[1..] + b);
    }
  }

  lemma {:induction false} NoneWithHigherScore(xs: seq<Scored>, score: real)
    requires forall y :: y in xs ==> y.score < score
    ensures WithScore(xs, score) == []
  {
    if xs != [] {
      assert xs[0] in xs;
      NoneWithHigherScore(xs[1..], score);
    }
  }

  lemma {:induction false} InsertIsStable(sorted: seq<Scored>, x: Scored, score: real)
    requires Descending(sorted)
    ensures WithScore(Insert(sorted, x), score)
      == WithScore(sorted, score) + (if x.score == score then [x] else [])
  {
    if sorted == [] || sorted[0].score < x.score {
      WithScoreCons(x, sorted, score);
      if x.score == score {
        forall y | y in sorted ensures y.score < score {
          var k :| 0 <= k < |sorted| && sorted[k] == y;
          assert k > 0 ==> sorted[0].score >= sorted[k].score;
        }
        NoneWithHigherScore(sorted, score);
      }
    } else {
      InsertIsStable(sorted[1..], x, score);
      WithScoreCons(sorted[0], sorted[1..], score);
      WithScoreCons(sorted[0], Insert(sorted[1..], x), score);
      assert sorted == [sorted[0]] + sorted[1..];
    }
  }

  /** Memories with equal scores keep their order. */
  lemma {:induction false} RankingIsStable(xs: seq<Scored>, score: real)
    ensures WithScore(Ranked(xs), score) == WithScore(xs, score)
  {
    if xs != [] {
      var front, last := xs[..|xs| - 1], xs[|xs| - 1];
      RankingIsStable(front, score);
      RankedIsSorted(front);
      InsertIsStable(Ranked(front), last, score);
      WithScoreOfConcat(front, [last], score);
      assert xs == front + [last] && [last][1..] == [];
    }
  }

  // ---- The age weight ----

  /** Missing time stamps weigh one half, one half-life one half of new, and the future nothing more than new;
      half-lives below a tenth of a day count as a tenth. */
  lemma AgeWeightTable(days: real, halfLife: real, halving: real -> real)
    requires halving(0.0) == 1.0 && halving(1.0) == 0.5
    ensures AgeWeight(None, halfLife, halving) == 0.5
    ensures days <= 0.0 ==> AgeWeight(Some(days), halfLife, halving) == 1.0
    ensures halfLife >= 0.1 ==> AgeWeight(Some(halfLife), halfLife, halving) == 0.5
    ensures halfLife < 0.1 ==> AgeWeight(Some(days), halfLife, halving) == AgeWeight(Some(days), 0.1, halving)
  {
    ZeroQuotient(Max(0.1, halfLife));
    if halfLife >= 0.1 {
      SelfQuotient(halfLife);
    }
  }

  lemma SelfQuotient(x: real)
    requires x > 0.0
    ensures x / x == 1.0
  {
  }
}
