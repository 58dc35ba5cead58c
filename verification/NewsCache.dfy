/** The news cache: articles under two unique keys, their analyses, and the refresh that fills both. */
module NewsCache {
  import opened Options

  /** `digest` is the dedupe hash computed from title, address, date, provider and source; `rest`
      stands for the columns every upsert overwrites. */
  datatype Article = Article(
    articleId: string,
    hash: string,
    digest: string,
    content: Option<string>,
    rawHtml: Option<string>,
    rest: string)

  datatype Row = Row(hash: string, content: Option<string>, rawHtml: Option<string>, rest: string)

  type Articles = map<string, Row>

  function EnsureHash(a: Article): Article {
    if a.hash == "" then a.(hash := a.digest) else a
  }

  /** Both keys are unique: the id is the key of the map, the hash by this condition. */
  ghost predicate UniqueHashes(table: Articles) {
    forall a, b :: a in table && b in table && table[a].hash == table[b].hash ==> a == b
  }

  predicate Holds(table: Articles, hash: string, id: string) {
    id in table && table[id].hash == hash
  }

  /** The id of the row with this hash. */
  ghost function FindByHash(table: Articles, hash: string): Option<string> {
    if exists id :: Holds(table, hash, id) then
      var id :| Holds(table, hash, id);
      Some(id)
    else None
  }

  function Coalesce<T>(newer: Option<T>, older: Option<T>): Option<T> {
    if newer.Some? then newer else older
  }

  /** The id under which an article is stored: that of the row that already has its hash. */
  ghost function StoredId(table: Articles, a: Article): string {
    var existing := FindByHash(table, EnsureHash(a).hash);
    if existing.Some? && existing.value != "" && existing.value != a.articleId then existing.value else a.articleId
  }

  function Written(table: Articles, id: string, a: Article): Articles {
    var row := if id in table
               then Row(a.hash, Coalesce(a.content, table[id].content), Coalesce(a.rawHtml, table[id].rawHtml), a.rest)
               else Row(a.hash, a.content, a.rawHtml, a.rest);
    table[id := row]
  }

  datatype Outcome = Stored(table: Articles, article: Article) | UniqueViolation

  /** The upsert; writing a hash that another row holds violates the unique constraint. */
  ghost function Upsert(table: Articles, a: Article): Outcome {
    var article := EnsureHash(a).(articleId := StoredId(table, a));
    if exists other :: other != article.articleId && Holds(table, article.hash, other) then UniqueViolation
    else Stored(Written(table, article.articleId, article), article)
  }

  // ---- One upsert ----

  lemma FoundIsUnique(table: Articles, hash: string, id: string)
    requires UniqueHashes(table) && Holds(table, hash, id)
    ensures FindByHash(table, hash) == Some(id)
  {
  }

  /** The constraint is violated exactly when the hash sits under an empty id and the article has
      another one. */
  lemma ViolatesExactly(table: Articles, a: Article)
    requires UniqueHashes(table)
    ensures Upsert(table, a) == UniqueViolation <==> a.articleId != "" && Holds(table, EnsureHash(a).hash, "")
  {
    var hash := EnsureHash(a).hash;
    if id :| Holds(table, hash, id) {
      FoundIsUnique(table, hash, id);
      if id != "" {
        assert StoredId(table, a) == id;
      } else {
        assert StoredId(table, a) == a.articleId;
      }
    }
  }

  /** A successful upsert keeps both keys unique, removes no row, never turns stored content or
      markup back into nothing, and leaves the article's hash under the article's final id. */
  lemma UpsertKeepsKeys(table: Articles, a: Article)
    requires UniqueHashes(table) && Upsert(table, a).Stored?
    ensures var Stored(table', article) := Upsert(table, a);
            && UniqueHashes(table')
            && table'.Keys == table.Keys + {article.articleId}
            && Holds(table', EnsureHash(a).hash, article.articleId)
            && (forall id :: id in table ==>
                  && (table[id].content.Some? ==> table'[id].content.Some?)
                  && (table[id].rawHtml.Some? ==> table'[id].rawHtml.Some?)
                  && (id != article.articleId ==> table'[id] == table[id]))
  {
    var Stored(table', article) := Upsert(table, a);
    forall a, b | a in table' && b in table' && table'[a].hash == table'[b].hash ensures a == b {
      assert a != article.articleId ==> a in table && !Holds(table, article.hash, a);
      assert b != article.articleId ==> b in table && !Holds(table, article.hash, b);
    }
  }

  /** Storing the same article again changes neither its id nor the row's hash. */
  lemma SecondUpsertFindsTheRow(table: Articles, a: Article)
    requires UniqueHashes(table) && Upsert(table, a).Stored?
    ensures var Stored(table', article) := Upsert(table, a);
            Upsert(table', article) == Stored(table', article)
  {
    UpsertKeepsKeys(table, a);
    var Stored(table', article) := Upsert(table, a);
    FoundIsUnique(table', article.hash, article.articleId);
    assert Written(table', article.articleId, article) == table';
  }

  /** What is stored: the article's own hash, or else its digest; its content and markup, or else those that
      the row had; and everything else as the article has it.  The article changes only in hash and id. */
  lemma UpsertStores(table: Articles, a: Article)
    requires Upsert(table, a).Stored?
    ensures var Stored(table', article) := Upsert(table, a);
            var id := article.articleId;
            && id in table'
            && table'[id].hash == article.hash == (if a.hash != "" then a.hash else a.digest)
            && table'[id].rest == article.rest == a.rest
            && article.content == a.content && article.rawHtml == a.rawHtml && article.digest == a.digest
            && (a.content.Some? ==> table'[id].content == a.content)
            && (a.rawHtml.Some? ==> table'[id].rawHtml == a.rawHtml)
            && (a.content.None? ==> table'[id].content == if id in table then table[id].content else None)
            && (a.rawHtml.None? ==> table'[id].rawHtml == if id in table then table[id].rawHtml else None)
            && forall other :: other in table && other != id ==> other in table' && table'[other] == table[other]
  {
  }

  /** The id it is stored under: that of the row with its hash, if there is one under a non-empty id. */
  lemma UpsertFindsItsRow(table: Articles, a: Article, id: string)
    requires UniqueHashes(table) && Upsert(table, a).Stored?
    ensures var hash, stored := if a.hash != "" then a.hash else a.digest, Upsert(table, a).article.articleId;
            && (id in table && table[id].hash == hash && id != "" ==> stored == id)
            && ((forall other :: other in table ==> table[other].hash != hash) ==> stored == a.articleId)
  {
    if id in table && table[id].hash == EnsureHash(a).hash {
      FoundIsUnique(table, EnsureHash(a).hash, id);
    }
  }

  // ---- Any sequence of upserts ----

  ghost function UpsertAll(table: Articles, articles: seq<Article>): Option<Articles> {
    if articles == [] then Some(table)
    else
      match UpsertAll(table, articles[..|articles| - 1])
      case None => None
      case Some(before) =>
        match Upsert(before, articles[|articles| - 1])
        case Stored(after, _) => Some(after)
        case UniqueViolation => None
  }

  /** With non-empty ids no sequence of upserts ever violates the constraint; both keys stay unique,
      and nothing once stored is lost. */
  lemma {:induction false} UpsertsNeverFail(table: Articles, articles: seq<Article>)
    requires UniqueHashes(table) && "" !in table
    requires forall i :: 0 <= i < |articles| ==> articles[i].articleId != ""
    ensures var after := UpsertAll(table, articles);
            && after.Some? && UniqueHashes(after.value) && "" !in after.value
            && (forall id :: id in table ==>
                  && id in after.value
                  && (table[id].content.Some? ==> after.value[id].content.Some?)
                  && (table[id].rawHtml.Some? ==> after.value[id].rawHtml.Some?))
  {
    if articles != [] {
      var front, last := articles[..|articles| - 1], articles[|articles| - 1];
      UpsertsNeverFail(table, front);
      var before := UpsertAll(table, front).value;
      ViolatesExactly(before, last);
      UpsertKeepsKeys(before, last);
      StoredIdIsNotEmpty(before, last);
    }
  }

  lemma StoredIdIsNotEmpty(table: Articles, a: Article)
    requires a.articleId != ""
    ensures StoredId(table, a) != ""
  {
  }

  // ---- The tables and the refresh ----

  datatype Analysis = Analysis(action: string, relevance: real)

  datatype Pair = Pair(article: Article, analysis: Analysis)

  /** The analysis that was saved last under an id, if the pairs were saved in order. */
  function LastFor(pairs: seq<Pair>, id: string): Option<Analysis> {
    if pairs == [] then None
    else
      var last := pairs[|pairs| - 1];
      if last.article.articleId == id then Some(last.analysis) else LastFor(pairs[..|pairs| - 1], id)
  }

  /** Every pair's id has a saved analysis: that of the last pair with this id. */
  ghost predicate Mirrors(analyses: map<string, Analysis>, pairs: seq<Pair>) {
    forall i :: 0 <= i < |pairs| ==>
      var id := pairs[i].article.articleId;
      id in analyses && LastFor(pairs, id) == Some(analyses[id])
  }

  /** The table and the returned pairs agree. */
  ghost predicate AgreesWith(analyses: map<string, Analysis>, pairs: seq<Pair>) {
    forall i :: 0 <= i < |pairs| ==>
      pairs[i].article.articleId in analyses && analyses[pairs[i].article.articleId] == pairs[i].analysis
  }

  /** No two pairs give the same id different analyses. */
  ghost predicate Unambiguous(pairs: seq<Pair>) {
    forall i, j :: 0 <= i < |pairs| && 0 <= j < |pairs| && pairs[i].article.articleId == pairs[j].article.articleId
      ==> pairs[i].analysis == pairs[j].analysis
  }

  function Replaced(pairs: seq<Pair>, newer: Pair): (result: seq<Pair>)
    ensures |result| == |pairs|
    ensures forall i :: 0 <= i < |pairs| ==>
      result[i] == if pairs[i].article.articleId == newer.article.articleId then newer else pairs[i]
  {
    seq(|pairs|, i requires 0 <= i < |pairs| =>
      if pairs[i].article.articleId == newer.article.articleId then newer else pairs[i])
  }

  lemma AppendMirrors(analyses: map<string, Analysis>, pairs: seq<Pair>, pair: Pair)
    requires Mirrors(analyses, pairs)
    ensures Mirrors(analyses[pair.article.articleId := pair.analysis], pairs + [pair])
  {
    assert (pairs + [pair])[..|pairs|] == pairs;
  }

  lemma {:induction false} LastAfterReplace(pairs: seq<Pair>, newer: Pair, id: string)
    ensures LastFor(Replaced(pairs, newer), id)
      == if id == newer.article.articleId && LastFor(pairs, id).Some? then Some(newer.analysis) else LastFor(pairs, id)
  {
    if pairs != [] {
      LastAfterReplace(pairs[..|pairs| - 1], newer, id);
      var result := Replaced(pairs, newer);
      assert result[..|pairs| - 1] == Replaced(pairs[..|pairs| - 1], newer);
    }
  }

  lemma ReplaceMirrors(analyses: map<string, Analysis>, pairs: seq<Pair>, newer: Pair)
    requires Mirrors(analyses, pairs)
    ensures Mirrors(analyses[newer.article.articleId := newer.analysis], Replaced(pairs, newer))
  {
    var result, table := Replaced(pairs, newer), analyses[newer.article.articleId := newer.analysis];
    forall i | 0 <= i < |result|
      ensures var id := result[i].article.articleId; id in table && LastFor(result, id) == Some(table[id])
    {
      var id := pairs[i].article.articleId;
      assert id in analyses && LastFor(pairs, id) == Some(analyses[id]);
      LastAfterReplace(pairs, newer, id);
    }
  }

  lemma {:induction false} LastIsOneOfThem(pairs: seq<Pair>, id: string) returns (k: nat)
    requires LastFor(pairs, id).Some?
    ensures k < |pairs| && pairs[k].article.articleId == id && LastFor(pairs, id) == Some(pairs[k].analysis)
  {
    if pairs[|pairs| - 1].article.articleId == id {
      k := |pairs| - 1;
    } else {
      k := LastIsOneOfThem(pairs[..|pairs| - 1], id);
    }
  }

  /** A mirrored table agrees with the pairs exactly when no id was analysed two different ways. */
  lemma MirrorAgreesExactly(analyses: map<string, Analysis>, pairs: seq<Pair>)
    requires Mirrors(analyses, pairs)
    ensures AgreesWith(analyses, pairs) <==> Unambiguous(pairs)
  {
    if Unambiguous(pairs) {
      forall i | 0 <= i < |pairs|
        ensures pairs[i].article.articleId in analyses && analyses[pairs[i].article.articleId] == pairs[i].analysis
      {
        var k := LastIsOneOfThem(pairs, pairs[i].article.articleId);
      }
    }
  }

  // ---- The refresh, as what it leaves behind ----

  datatype State = State(articles: Articles, analyses: map<string, Analysis>)

  ghost predicate Sound(s: State) {
    UniqueHashes(s.articles) && "" !in s.articles
  }

  predicate Identified(articles: seq<Article>) {
    forall i :: 0 <= i < |articles| ==> articles[i].articleId != ""
  }

  function Hashes(articles: seq<Article>): set<string> {
    set i | 0 <= i < |articles| :: articles[i].hash
  }

  /** Batch de-duplication: the first article of every hash is stored and kept. */
  ghost function Fetch(table: Articles, headlines: seq<Article>): (Articles, seq<Article>) {
    if headlines == [] then (table, [])
    else
      var last := headlines[|headlines| - 1];
      var (before, deduped) := Fetch(table, headlines[..|headlines| - 1]);
      if EnsureHash(last).hash in Hashes(deduped) then (before, deduped)
      else
        match Upsert(before, last)
        case Stored(after, article) => (after, deduped + [article])
        case UniqueViolation => (before, deduped)
  }

  /** Analysing a batch: each article is classified, stored again and its analysis saved. */
  ghost function Analyze(s: State, batch: seq<Article>, classify: Article -> Analysis): (State, seq<Pair>) {
    if batch == [] then (s, [])
    else
      var last := batch[|batch| - 1];
      var (before, pairs) := Analyze(s, batch[..|batch| - 1], classify);
      match Upsert(before.articles, last)
      case Stored(after, article) =>
        (State(after, before.analyses[article.articleId := classify(last)]), pairs + [Pair(article, classify(last))])
      case UniqueViolation => (before, pairs)
  }

  /** One fetched full text: stored, classified, stored again, saved, and put in place of every pair
      with its id; a failed fetch changes nothing. */
  ghost function FillOne(s: State, pairs: seq<Pair>, reply: Option<Article>, classify: Article -> Analysis)
    : (State, seq<Pair>)
  {
    if reply.None? then (s, pairs)
    else
      match Upsert(s.articles, reply.value)
      case UniqueViolation => (s, pairs)
      case Stored(once, full) =>
        match Upsert(once, full)
        case UniqueViolation => (s, pairs)
        case Stored(twice, again) =>
          (State(twice, s.analyses[again.articleId := classify(full)]), Replaced(pairs, Pair(again, classify(full))))
  }

  ghost function FillIn(s: State, pairs: seq<Pair>, replies: seq<Option<Article>>, classify: Article -> Analysis)
    : (State, seq<Pair>)
  {
    if replies == [] then (s, pairs)
    else
      var (before, earlier) := FillIn(s, pairs, replies[..|replies| - 1], classify);
      FillOne(before, earlier, replies[|replies| - 1], classify)
  }

  function Targets(pairs: seq<Pair>, wantsFull: Analysis -> bool): nat {
    if pairs == [] then 0
    else Targets(pairs[..|pairs| - 1], wantsFull) + if wantsFull(pairs[|pairs| - 1].analysis) then 1 else 0
  }

  function Prefix<T>(xs: seq<T>, n: nat): seq<T> {
    if n < |xs| then xs[..n] else xs
  }

  /** The whole refresh; `fetched` are the replies of the full-text fetches, in order. */
  ghost function Refresh(s: State, headlines: seq<Article>, classify: Article -> Analysis, wantsFull: Analysis -> bool,
                         fetched: seq<Option<Article>>): (State, seq<Pair>)
  {
    var (table, batch) := Fetch(s.articles, headlines);
    var (s1, pairs) := Analyze(s.(articles := table), batch, classify);
    FillIn(s1, pairs, Prefix(fetched, Targets(pairs, wantsFull)), classify)
  }

  // ---- What the refresh guarantees ----

  lemma UpsertIsSound(table: Articles, a: Article)
    requires UniqueHashes(table) && "" !in table && a.articleId != ""
    ensures Upsert(table, a).Stored?
    ensures var Stored(after, article) := Upsert(table, a);
            UniqueHashes(after) && "" !in after && article.articleId != "" && article.hash == EnsureHash(a).hash
  {
    ViolatesExactly(table, a);
    UpsertKeepsKeys(table, a);
    StoredIdIsNotEmpty(table, a);
  }

  /** De-duplication keeps one article of every hash in the batch, and only one. */
  lemma {:induction false} FetchDeduplicates(table: Articles, headlines: seq<Article>)
    requires UniqueHashes(table) && "" !in table && Identified(headlines)
    ensures var (after, deduped) := Fetch(table, headlines);
            && UniqueHashes(after) && "" !in after && Identified(deduped)
            && (forall i, j :: 0 <= i < j < |deduped| ==> deduped[i].hash != deduped[j].hash)
            && Hashes(deduped) == BatchHashes(headlines)
  {
    if headlines != [] {
      var front, last := headlines[..|headlines| - 1], headlines[|headlines| - 1];
      FetchDeduplicates(table, front);
      var (before, deduped) := Fetch(table, front);
      UpsertIsSound(before, last);
      BatchHashesGrow(front, last);
      assert headlines == front + [last];
      HashesGrow(deduped, Upsert(before, last).article);
    }
  }

  ghost predicate KeptFrom(article: Article, headline: Article) {
    && article.hash == EnsureHash(headline).hash && article.digest == headline.digest
    && article.content == headline.content && article.rawHtml == headline.rawHtml && article.rest == headline.rest
  }

  /** `kept` says which headline each article of the batch is: the first of its hash, in order. */
  ghost predicate Firsts(batch: seq<Article>, headlines: seq<Article>, kept: seq<nat>) {
    && |kept| == |batch|
    && (forall k :: 0 <= k < |kept| ==> kept[k] < |headlines| && KeptFrom(batch[k], headlines[kept[k]]))
    && (forall k, i :: 0 <= k < |kept| && 0 <= i < kept[k] < |headlines| ==>
          EnsureHash(headlines[i]).hash != batch[k].hash)
    && (forall k, l :: 0 <= k < l < |kept| ==> kept[k] < kept[l])
  }

  lemma FirstsGrow(batch: seq<Article>, headlines: seq<Article>, kept: seq<nat>, article: Article, last: Article)
    requires Firsts(batch, headlines, kept)
    ensures Firsts(batch, headlines + [last], kept)
    ensures KeptFrom(article, last) && article.hash !in BatchHashes(headlines) ==>
      Firsts(batch + [article], headlines + [last], kept + [|headlines|])
  {
    if article.hash !in BatchHashes(headlines) {
      NotAmongTheFirst(headlines, article.hash);
    }
  }

  /** The article kept for a hash is the first headline with it, as far as hash, content and the rest go, and
      kept articles are in the order of their headlines. */
  lemma {:induction false} FetchKeepsTheFirst(table: Articles, headlines: seq<Article>) returns (kept: seq<nat>)
    requires UniqueHashes(table) && "" !in table && Identified(headlines)
    ensures Firsts(Fetch(table, headlines).1, headlines, kept)
  {
    if headlines == [] {
      kept := [];
    } else {
      var front, last := headlines[..|headlines| - 1], headlines[|headlines| - 1];
      kept := FetchKeepsTheFirst(table, front);
      FetchDeduplicates(table, front);
      var (before, deduped) := Fetch(table, front);
      UpsertIsSound(before, last);
      UpsertStores(before, last);
      FirstsGrow(deduped, front, kept, Upsert(before, last).article, last);
      assert headlines == front + [last];
      if EnsureHash(last).hash !in Hashes(deduped) {
        kept := kept + [|front|];
      }
    }
  }

  lemma NotAmongTheFirst(headlines: seq<Article>, hash: string)
    requires hash !in BatchHashes(headlines)
    ensures forall i :: 0 <= i < |headlines| ==> EnsureHash(headlines[i]).hash != hash
  {
  }

  /** The hashes a batch stands for, computed where they are missing. */
  function BatchHashes(headlines: seq<Article>): set<string> {
    set i | 0 <= i < |headlines| :: EnsureHash(headlines[i]).hash
  }

  lemma BatchHashesGrow(front: seq<Article>, last: Article)
    ensures BatchHashes(front + [last]) == BatchHashes(front) + {EnsureHash(last).hash}
  {
    var headlines := front + [last];
    forall hash ensures hash in BatchHashes(headlines) <==> hash in BatchHashes(front) + {EnsureHash(last).hash} {
      if hash in BatchHashes(front) {
        var i :| 0 <= i < |front| && EnsureHash(front[i]).hash == hash;
        assert headlines[i] == front[i];
      } else if hash == EnsureHash(last).hash {
        assert headlines[|front|] == last;
      }
    }
  }

  lemma HashesGrow(articles: seq<Article>, article: Article)
    ensures Hashes(articles + [article]) == Hashes(articles) + {article.hash}
  {
    assert (articles + [article])[|articles|] == article;
    assert forall i :: 0 <= i < |articles| ==> (articles + [article])[i] == articles[i];
  }

  lemma {:induction false} AnalyzeMirrors(s: State, batch: seq<Article>, classify: Article -> Analysis)
    requires Sound(s) && Identified(batch)
    ensures var (after, pairs) := Analyze(s, batch, classify);
            && Sound(after) && Mirrors(after.analyses, pairs) && |pairs| == |batch|
            && (forall i :: 0 <= i < |pairs| ==>
                  pairs[i].article.hash == EnsureHash(batch[i]).hash && pairs[i].analysis == classify(batch[i]))
  {
    if batch != [] {
      var front, last := batch[..|batch| - 1], batch[|batch| - 1];
      assert forall i :: 0 <= i < |front| ==> front[i] == batch[i];
      AnalyzeMirrors(s, front, classify);
      var (before, pairs) := Analyze(s, front, classify);
      UpsertIsSound(before.articles, last);
      AppendMirrors(before.analyses, pairs, Pair(Upsert(before.articles, last).article, classify(last)));
    }
  }

  ghost predicate IdentifiedReplies(replies: seq<Option<Article>>) {
    forall i :: 0 <= i < |replies| && replies[i].Some? ==> replies[i].value.articleId != ""
  }

  lemma FillOneMirrors(s: State, pairs: seq<Pair>, reply: Option<Article>, classify: Article -> Analysis)
    requires Sound(s) && Mirrors(s.analyses, pairs) && (reply.Some? ==> reply.value.articleId != "")
    ensures var (after, filled) := FillOne(s, pairs, reply, classify);
            Sound(after) && Mirrors(after.analyses, filled) && |filled| == |pairs|
    ensures reply.Some? ==>
      && Upsert(s.articles, reply.value).Stored?
      && (var full := Upsert(s.articles, reply.value);
          && Upsert(full.table, full.article).Stored? && full.article.articleId != ""
          && UniqueHashes(full.table) && "" !in full.table)
  {
    if reply.Some? {
      UpsertIsSound(s.articles, reply.value);
      var full := Upsert(s.articles, reply.value);
      UpsertIsSound(full.table, full.article);
      ReplaceMirrors(s.analyses, pairs, Pair(Upsert(full.table, full.article).article, classify(full.article)));
    }
  }

  /** A fetched full text is what the pairs with its id hold from then on, with its own analysis; the others
      stay, and its content is in the table. */
  lemma FillOnePutsTheTextInPlace(s: State, pairs: seq<Pair>, full: Article, classify: Article -> Analysis)
    requires Sound(s) && full.articleId != ""
    ensures var (after, filled) := FillOne(s, pairs, Some(full), classify);
            var stored := Upsert(s.articles, full).article;
            && KeptFrom(stored, full) && |filled| == |pairs|
            && (forall i :: 0 <= i < |pairs| ==>
                  if pairs[i].article.articleId == stored.articleId then filled[i] == Pair(stored, classify(stored))
                  else filled[i] == pairs[i])
            && after.analyses == s.analyses[stored.articleId := classify(stored)]
            && stored.articleId in after.articles
            && (full.content.Some? ==> after.articles[stored.articleId].content == full.content)
  {
    UpsertIsSound(s.articles, full);
    UpsertStores(s.articles, full);
    SecondUpsertFindsTheRow(s.articles, full);
  }

  /** Nothing is fetched that no analysis asks for. */
  lemma NothingWantedNothingFetched(s: State, headlines: seq<Article>, classify: Article -> Analysis,
                                    wantsFull: Analysis -> bool, fetched: seq<Option<Article>>)
    requires forall analysis :: !wantsFull(analysis)
    ensures var (table, batch) := Fetch(s.articles, headlines);
            Refresh(s, headlines, classify, wantsFull, fetched) == Analyze(s.(articles := table), batch, classify)
  {
    var (table, batch) := Fetch(s.articles, headlines);
    var pairs := Analyze(s.(articles := table), batch, classify).1;
    TargetsAreWanted(pairs, wantsFull);
    assert Prefix(fetched, 0) == [];
  }

  function Wanted(pairs: seq<Pair>, wantsFull: Analysis -> bool): seq<Pair> {
    if pairs == [] then []
    else (if wantsFull(pairs[0].analysis) then [pairs[0]] else []) + Wanted(pairs[1..], wantsFull)
  }

  lemma {:induction false} WantedOfConcat(a: seq<Pair>, b: seq<Pair>, wantsFull: Analysis -> bool)
    ensures Wanted(a + b, wantsFull) == Wanted(a, wantsFull) + Wanted(b, wantsFull)
  {
    if a == [] {
      assert a + b == b;
    } else {
      WantedOfConcat(a[1..], b, wantsFull);
      assert (a + b)[1..] == a[1..] + b;
    }
  }

  /** As many full texts are fetched as pairs ask for one. */
  lemma {:induction false} TargetsAreWanted(pairs: seq<Pair>, wantsFull: Analysis -> bool)
    ensures Targets(pairs, wantsFull) == |Wanted(pairs, wantsFull)|
    ensures (forall analysis :: !wantsFull(analysis)) ==> Targets(pairs, wantsFull) == 0
  {
    if pairs != [] {
      var front, last := pairs[..|pairs| - 1], pairs[|pairs| - 1];
      TargetsAreWanted(front, wantsFull);
      WantedOfConcat(front, [last], wantsFull);
      assert pairs == front + [last] && [last][1..] == [];
    }
  }

  lemma {:induction false} FillInMirrors(s: State, pairs: seq<Pair>, replies: seq<Option<Article>>,
                                         classify: Article -> Analysis)
    requires Sound(s) && Mirrors(s.analyses, pairs) && IdentifiedReplies(replies)
    ensures var (after, filled) := FillIn(s, pairs, replies, classify);
            Sound(after) && Mirrors(after.analyses, filled) && |filled| == |pairs|
  {
    if replies != [] {
      var front := replies[..|replies| - 1];
      assert forall i :: 0 <= i < |front| ==> front[i] == replies[i];
      FillInMirrors(s, pairs, front, classify);
      var (before, earlier) := FillIn(s, pairs, front, classify);
      FillOneMirrors(before, earlier, replies[|replies| - 1], classify);
    }
  }

  /** After a refresh the tables are sound, there is one pair per distinct hash of the batch, and the
      analyses table agrees with every returned pair exactly when no id was analysed two ways. */
  lemma RefreshAgreesExactly(s: State, headlines: seq<Article>, classify: Article -> Analysis,
                             wantsFull: Analysis -> bool, fetched: seq<Option<Article>>)
    requires Sound(s) && Identified(headlines) && IdentifiedReplies(fetched)
    ensures var (after, pairs) := Refresh(s, headlines, classify, wantsFull, fetched);
            && Sound(after)
            && |pairs| == |Fetch(s.articles, headlines).1|
            && (AgreesWith(after.analyses, pairs) <==> Unambiguous(pairs))
  {
    var (table, batch) := Fetch(s.articles, headlines);
    FetchDeduplicates(s.articles, headlines);
    AnalyzeMirrors(s.(articles := table), batch, classify);
    var (s1, pairs) := Analyze(s.(articles := table), batch, classify);
    FillInMirrors(s1, pairs, Prefix(fetched, Targets(pairs, wantsFull)), classify);
    var (after, filled) := Refresh(s, headlines, classify, wantsFull, fetched);
    MirrorAgreesExactly(after.analyses, filled);
  }

  // ---- Which batches agree ----

  /** Every hash of the batch that is stored at all is stored under the id its article was given. */
  ghost predicate Homed(table: Articles, batch: seq<Article>) {
    forall k, id :: 0 <= k < |batch| && Holds(table, batch[k].hash, id) ==> id == batch[k].articleId
  }

  lemma UpsertKeepsHomed(table: Articles, batch: seq<Article>, a: Article)
    requires UniqueHashes(table) && Homed(table, batch) && Upsert(table, a).Stored?
    requires forall k :: 0 <= k < |batch| && batch[k].hash == Upsert(table, a).article.hash
               ==> batch[k].articleId == Upsert(table, a).article.articleId
    ensures Homed(Upsert(table, a).table, batch)
  {
    UpsertKeepsKeys(table, a);
    var Stored(after, article) := Upsert(table, a);
    forall k, id | 0 <= k < |batch| && Holds(after, batch[k].hash, id) ensures id == batch[k].articleId {
      if id == article.articleId {
        assert after[id].hash == article.hash;
      } else {
        assert Holds(table, batch[k].hash, id);
      }
    }
  }

  /** The batch that de-duplication returns is at home in the table it leaves. */
  lemma {:induction false} FetchedAreHomed(table: Articles, headlines: seq<Article>)
    requires UniqueHashes(table) && "" !in table && Identified(headlines)
    ensures var (after, deduped) := Fetch(table, headlines); Homed(after, deduped) && Hashed(deduped)
  {
    if headlines != [] {
      var front, last := headlines[..|headlines| - 1], headlines[|headlines| - 1];
      FetchedAreHomed(table, front);
      FetchDeduplicates(table, front);
      var (before, deduped) := Fetch(table, front);
      UpsertIsSound(before, last);
      if EnsureHash(last).hash !in Hashes(deduped) {
        NewcomerIsHomed(before, deduped, last);
      }
    }
  }

  lemma NewcomerIsHomed(table: Articles, batch: seq<Article>, a: Article)
    requires UniqueHashes(table) && Homed(table, batch) && Hashed(batch) && Upsert(table, a).Stored?
    requires EnsureHash(a).hash !in Hashes(batch)
    ensures Homed(Upsert(table, a).table, batch + [Upsert(table, a).article])
    ensures Hashed(batch + [Upsert(table, a).article])
  {
    var Stored(after, article) := Upsert(table, a);
    UpsertKeepsKeys(table, a);
    forall k | 0 <= k < |batch| ensures batch[k].hash != article.hash {
      assert batch[k].hash in Hashes(batch);
    }
    UpsertKeepsHomed(table, batch, a);
    forall id | Holds(after, article.hash, id) ensures id == article.articleId {
    }
  }

  /** The hash of a stored article is the one it would compute. */
  ghost predicate Hashed(batch: seq<Article>) {
    forall k :: 0 <= k < |batch| ==> EnsureHash(batch[k]).hash == batch[k].hash
  }

  /** An article at home keeps its id when it is stored again. */
  lemma HomedKeepsItsId(table: Articles, batch: seq<Article>, k: nat)
    requires UniqueHashes(table) && Homed(table, batch) && Hashed(batch) && k < |batch|
    ensures StoredId(table, batch[k]) == batch[k].articleId
  {
    if id :| Holds(table, batch[k].hash, id) {
      FoundIsUnique(table, batch[k].hash, id);
    }
  }

  ghost predicate HashesApart(batch: seq<Article>) {
    forall i, j :: 0 <= i < j < |batch| ==> batch[i].hash != batch[j].hash
  }

  /** Analysing the first `n` articles of a batch at home moves none of them. */
  lemma {:induction false} AnalysisKeepsIds(s: State, batch: seq<Article>, n: nat, classify: Article -> Analysis)
    requires Sound(s) && Identified(batch) && Homed(s.articles, batch) && Hashed(batch) && HashesApart(batch)
    requires n <= |batch|
    ensures var (after, pairs) := Analyze(s, batch[..n], classify);
            && Sound(after) && Homed(after.articles, batch) && |pairs| == n
            && (forall i :: 0 <= i < n ==> pairs[i].article.articleId == batch[i].articleId)
  {
    if n > 0 {
      AnalysisKeepsIds(s, batch, n - 1, classify);
      assert batch[..n][..n - 1] == batch[..n - 1];
      var (before, pairs) := Analyze(s, batch[..n - 1], classify);
      UpsertIsSound(before.articles, batch[n - 1]);
      HomedKeepsItsId(before.articles, batch, n - 1);
      UpsertKeepsHomed(before.articles, batch, batch[n - 1]);
    }
  }

  lemma {:induction false} FillInKeepsIds(s: State, pairs: seq<Pair>, replies: seq<Option<Article>>,
                                          classify: Article -> Analysis)
    ensures var filled := FillIn(s, pairs, replies, classify).1;
            && |filled| == |pairs|
            && forall i :: 0 <= i < |pairs| ==> filled[i].article.articleId == pairs[i].article.articleId
  {
    if replies != [] {
      FillInKeepsIds(s, pairs, replies[..|replies| - 1], classify);
    }
  }

  /** The returned pairs carry the ids that the batch was stored under, whatever is fetched later. */
  lemma RefreshKeepsIds(s: State, headlines: seq<Article>, classify: Article -> Analysis,
                        wantsFull: Analysis -> bool, fetched: seq<Option<Article>>)
    requires Sound(s) && Identified(headlines)
    ensures var batch, pairs := Batch(s, headlines), Refresh(s, headlines, classify, wantsFull, fetched).1;
            && |pairs| == |batch|
            && forall i :: 0 <= i < |batch| ==> pairs[i].article.articleId == batch[i].articleId
  {
    var (table, batch) := Fetch(s.articles, headlines);
    FetchDeduplicates(s.articles, headlines);
    FetchedAreHomed(s.articles, headlines);
    AnalysisKeepsIds(s.(articles := table), batch, |batch|, classify);
    assert batch[..|batch|] == batch;
    var (s1, pairs) := Analyze(s.(articles := table), batch, classify);
    FillInKeepsIds(s1, pairs, Prefix(fetched, Targets(pairs, wantsFull)), classify);
  }

  /** The articles a refresh works on: the headlines, de-duplicated, under the ids left by their upserts. */
  ghost function Batch(s: State, headlines: seq<Article>): seq<Article> {
    Fetch(s.articles, headlines).1
  }

  ghost predicate IdsApart(batch: seq<Article>) {
    forall i, j :: 0 <= i < j < |batch| ==> batch[i].articleId != batch[j].articleId
  }

  /** Whatever the classifier says and whatever full texts arrive, table and returned pairs agree. */
  ghost predicate AlwaysAgrees(s: State, headlines: seq<Article>) {
    forall classify: Article -> Analysis, wantsFull: Analysis -> bool, fetched: seq<Option<Article>> ::
      IdentifiedReplies(fetched) ==> RefreshAgrees(s, headlines, classify, wantsFull, fetched)
  }

  ghost predicate RefreshAgrees(s: State, headlines: seq<Article>, classify: Article -> Analysis,
                                wantsFull: Analysis -> bool, fetched: seq<Option<Article>>)
  {
    var (after, pairs) := Refresh(s, headlines, classify, wantsFull, fetched);
    AgreesWith(after.analyses, pairs)
  }

  lemma DistinctIdsAgree(s: State, headlines: seq<Article>, classify: Article -> Analysis,
                         wantsFull: Analysis -> bool, fetched: seq<Option<Article>>)
    requires Sound(s) && Identified(headlines) && IdentifiedReplies(fetched) && IdsApart(Batch(s, headlines))
    ensures RefreshAgrees(s, headlines, classify, wantsFull, fetched)
  {
    RefreshAgreesExactly(s, headlines, classify, wantsFull, fetched);
    RefreshKeepsIds(s, headlines, classify, wantsFull, fetched);
    var pairs := Refresh(s, headlines, classify, wantsFull, fetched).1;
    forall i, j | 0 <= i < |pairs| && 0 <= j < |pairs| && pairs[i].article.articleId == pairs[j].article.articleId
      ensures pairs[i].analysis == pairs[j].analysis
    {
      assert i < j || j < i || i == j;
    }
  }

  /** A classifier that tells two articles apart by their hashes. */
  function ByHash(a: Article): Analysis {
    Analysis(a.hash, 0.0)
  }

  lemma SharedIdDisagrees(s: State, headlines: seq<Article>, wantsFull: Analysis -> bool, i: nat, j: nat)
    requires Sound(s) && Identified(headlines)
    requires i < j < |Batch(s, headlines)| && Batch(s, headlines)[i].articleId == Batch(s, headlines)[j].articleId
    ensures !RefreshAgrees(s, headlines, ByHash, wantsFull, [])
  {
    RefreshAgreesExactly(s, headlines, ByHash, wantsFull, []);
    RefreshKeepsIds(s, headlines, ByHash, wantsFull, []);
    var (table, batch) := Fetch(s.articles, headlines);
    FetchDeduplicates(s.articles, headlines);
    AnalyzeMirrors(s.(articles := table), batch, ByHash);
    var (s1, pairs) := Analyze(s.(articles := table), batch, ByHash);
    assert Prefix<Option<Article>>([], Targets(pairs, wantsFull)) == [];
    assert Refresh(s, headlines, ByHash, wantsFull, []).1 == pairs;
    assert pairs[i].analysis == ByHash(batch[i]) && pairs[j].analysis == ByHash(batch[j]);
  }

  /** A refresh always leaves table and pairs in agreement exactly when the ids left after the
      batch's upserts are distinct. */
  lemma RefreshAgreesIffIdsDistinct(s: State, headlines: seq<Article>)
    requires Sound(s) && Identified(headlines)
    ensures AlwaysAgrees(s, headlines) <==> IdsApart(Batch(s, headlines))
  {
    if IdsApart(Batch(s, headlines)) {
      forall classify: Article -> Analysis, wantsFull: Analysis -> bool, fetched: seq<Option<Article>>
        | IdentifiedReplies(fetched)
        ensures RefreshAgrees(s, headlines, classify, wantsFull, fetched)
      {
        DistinctIdsAgree(s, headlines, classify, wantsFull, fetched);
      }
    } else {
      var batch := Batch(s, headlines);
      var i, j :| 0 <= i < j < |batch| && batch[i].articleId == batch[j].articleId;
      var never := (a: Analysis) => false;
      SharedIdDisagrees(s, headlines, never, i, j);
      assert IdentifiedReplies([]) && !RefreshAgrees(s, headlines, ByHash, never, []);
    }
  }

  /** Two headlines of one page, retitled in between: one id, two hashes.  A cache that knows neither
      hash lets them share the id, so some refresh disagrees. */
  lemma RetitledPageDisagrees(s: State, first: Article, second: Article)
    requires Sound(s) && first.articleId == second.articleId != ""
    requires EnsureHash(first).hash != EnsureHash(second).hash
    requires FindByHash(s.articles, EnsureHash(first).hash) == None
    requires FindByHash(s.articles, EnsureHash(second).hash) == None
    ensures !AlwaysAgrees(s, [first, second])
  {
    var both := [first, second];
    assert both[..1] == [first] && [first][..0] == [];
    assert Fetch(s.articles, []) == (s.articles, []);
    UpsertIsSound(s.articles, first);
    var Stored(once, a) := Upsert(s.articles, first);
    assert Fetch(s.articles, [first]) == (once, [a]) by { assert [] + [a] == [a]; }
    UpsertKeepsKeys(s.articles, first);
    assert FindByHash(once, EnsureHash(second).hash) == None by {
      forall id ensures !Holds(once, EnsureHash(second).hash, id) {
        if id != a.articleId {
          assert Holds(once, EnsureHash(second).hash, id) ==> Holds(s.articles, EnsureHash(second).hash, id);
        }
      }
    }
    UpsertIsSound(once, second);
    var b := Upsert(once, second).article;
    assert Hashes([a]) == {a.hash} by { assert [a][0] == a; }
    assert Batch(s, both) == [a, b] by { assert [a] + [b] == [a, b]; }
    RefreshAgreesIffIdsDistinct(s, both);
    assert !IdsApart([a, b]) by { assert [a, b][0].articleId == [a, b][1].articleId; }
  }

  /** As the provider builds them: the id from the page's number, the digest from its title too. */
  lemma RetitledPageExample()
    ensures var before := Article("ithome-1", "", "first title", None, None, "");
            var after := Article("ithome-1", "", "second title", None, None, "");
            !AlwaysAgrees(State(map[], map[]), [before, after])
  {
    var before := Article("ithome-1", "", "first title", None, None, "");
    var after := Article("ithome-1", "", "second title", None, None, "");
    assert |before.digest| != |after.digest| && |before.articleId| == 8;
    RetitledPageDisagrees(State(map[], map[]), before, after);
  }

  /** Ranking the pairs, in whatever order, changes nothing about the agreement. */
  lemma RankingKeepsAgreement(analyses: map<string, Analysis>, pairs: seq<Pair>, ranked: seq<Pair>)
    requires multiset(ranked) == multiset(pairs)
    ensures AgreesWith(analyses, ranked) <==> AgreesWith(analyses, pairs)
  {
    AgreementIsPairwise(analyses, pairs);
    AgreementIsPairwise(analyses, ranked);
    assert forall pair :: pair in pairs <==> pair in multiset(pairs);
    assert forall pair :: pair in ranked <==> pair in multiset(ranked);
  }

  lemma AgreementIsPairwise(analyses: map<string, Analysis>, pairs: seq<Pair>)
    ensures AgreesWith(analyses, pairs)
      <==> forall pair :: pair in pairs ==>
             pair.article.articleId in analyses && analyses[pair.article.articleId] == pair.analysis
  {
    if AgreesWith(analyses, pairs) {
      forall pair | pair in pairs
        ensures pair.article.articleId in analyses && analyses[pair.article.articleId] == pair.analysis
      {
        var i :| 0 <= i < |pairs| && pairs[i] == pair;
      }
    }
  }

  // ---- The service over its two tables ----

  class NewsService {
    var articles: Articles
    var analyses: map<string, Analysis>

    ghost function Value(): State
      reads this
    {
      State(articles, analyses)
    }

    constructor ()
      ensures Value() == State(map[], map[])
    {
      articles, analyses := map[], map[];
    }

    /** None is the integrity error: the table is then as it was. */
    method TryUpsert(a: Article) returns (stored: Option<Article>)
      requires UniqueHashes(articles)
      modifies this`articles
      ensures UniqueHashes(articles)
      ensures stored.None? <==> a.articleId != "" && Holds(old(articles), EnsureHash(a).hash, "")
      ensures stored.None? ==> Upsert(old(articles), a) == UniqueViolation && articles == old(articles)
      ensures stored.Some? ==> Upsert(old(articles), a) == Stored(articles, stored.value)
    {
      ghost var before := articles;
      ViolatesExactly(articles, a);
      var article := EnsureHash(a);
      var holders := set id | id in articles && articles[id].hash == article.hash;
      if holders != {} {
        var existing: string :| existing in holders;
        FoundIsUnique(articles, article.hash, existing);
        if existing != "" && existing != article.articleId {
          article := article.(articleId := existing);
        }
      } else {
        assert forall id :: id in articles ==> id !in holders;
        assert FindByHash(articles, article.hash) == None;
      }
      assert article.articleId == StoredId(before, a);
      if exists id :: id in holders && id != article.articleId {
        return None;
      }
      assert forall other :: Holds(before, article.hash, other) ==> other in holders;
      articles := Written(articles, article.articleId, article);
      UpsertKeepsKeys(before, a);
      stored := Some(article);
    }

    method UpsertArticle(a: Article) returns (article: Article)
      requires Sound(Value()) && a.articleId != ""
      modifies this`articles
      ensures Upsert(old(articles), a) == Stored(articles, article)
      ensures Sound(Value()) && article.articleId != "" && article.hash == EnsureHash(a).hash
    {
      UpsertIsSound(articles, a);
      var stored := TryUpsert(a);
      article := stored.value;
    }

    method SaveAnalysis(id: string, analysis: Analysis)
      modifies this`analyses
      ensures analyses == old(analyses)[id := analysis]
    {
      analyses := analyses[id := analysis];
    }

    method FetchHeadlines(headlines: seq<Article>) returns (deduped: seq<Article>)
      requires Sound(Value()) && Identified(headlines)
      modifies this`articles
      ensures Sound(Value())
      ensures (articles, deduped) == Fetch(old(articles), headlines)
    {
      deduped := [];
      var seen: set<string> := {};
      for n := 0 to |headlines|
        invariant Sound(Value()) && seen == Hashes(deduped)
        invariant (articles, deduped) == Fetch(old(articles), headlines[..n])
      {
        assert headlines[..n + 1][..n] == headlines[..n];
        var article := EnsureHash(headlines[n]);
        if article.hash in seen {
          continue;
        }
        ghost var before := deduped;
        article := UpsertArticle(headlines[n]);
        seen := seen + {article.hash};
        deduped := deduped + [article];
        HashesGrow(before, article);
      }
      assert headlines[..|headlines|] == headlines;
    }

    method AnalyzeBatch(batch: seq<Article>, classify: Article -> Analysis) returns (analyzed: seq<Pair>)
      requires Sound(Value()) && Identified(batch)
      modifies this
      ensures Sound(Value())
      ensures (Value(), analyzed) == Analyze(old(Value()), batch, classify)
    {
      analyzed := [];
      for n := 0 to |batch|
        invariant Sound(Value())
        invariant (Value(), analyzed) == Analyze(old(Value()), batch[..n], classify)
      {
        assert batch[..n + 1][..n] == batch[..n];
        var analysis := classify(batch[n]);
        var article := UpsertArticle(batch[n]);
        SaveAnalysis(article.articleId, analysis);
        analyzed := analyzed + [Pair(article, analysis)];
      }
      assert batch[..|batch|] == batch;
    }

    method FillInContent(pairs: seq<Pair>, replies: seq<Option<Article>>, classify: Article -> Analysis)
      returns (analyzed: seq<Pair>)
      requires Sound(Value()) && Mirrors(analyses, pairs) && IdentifiedReplies(replies)
      modifies this
      ensures Sound(Value())
      ensures (Value(), analyzed) == FillIn(old(Value()), pairs, replies, classify)
    {
      analyzed := pairs;
      for k := 0 to |replies|
        invariant Sound(Value()) && Mirrors(analyses, analyzed)
        invariant (Value(), analyzed) == FillIn(old(Value()), pairs, replies[..k], classify)
      {
        assert replies[..k + 1][..k] == replies[..k];
        FillOneMirrors(Value(), analyzed, replies[k], classify);
        if replies[k].None? {
          continue;
        }
        var full := UpsertArticle(replies[k].value);
        var refreshed := classify(full);
        full := UpsertArticle(full);
        SaveAnalysis(full.articleId, refreshed);
        analyzed := Replaced(analyzed, Pair(full, refreshed));
      }
      assert replies[..|replies|] == replies;
    }

    method RefreshAndAnalyze(headlines: seq<Article>, classify: Article -> Analysis, wantsFull: Analysis -> bool,
                             fetched: seq<Option<Article>>)
      returns (analyzed: seq<Pair>)
      requires Sound(Value()) && Identified(headlines) && IdentifiedReplies(fetched)
      modifies this
      ensures (Value(), analyzed) == Refresh(old(Value()), headlines, classify, wantsFull, fetched)
      ensures Sound(Value())
    {
      FetchDeduplicates(articles, headlines);
      var batch := FetchHeadlines(headlines);
      AnalyzeMirrors(Value(), batch, classify);
      analyzed := AnalyzeBatch(batch, classify);
      var targets := Targets(analyzed, wantsFull);
      analyzed := FillInContent(analyzed, Prefix(fetched, targets), classify);
    }
  }
}
