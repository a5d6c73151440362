/**
 The ranking of keyword search results: matches are merged into one entry per chunk at its best
 score, and four successive stable sorts put the entries into one lexicographic order.
 */
module KeywordRanking {
  import Text

  datatype Chunk = Chunk(chunkId: string, documentId: string, chunkIndex: int, updatedAt: string, text: string)

  datatype Match = Match(chunk: Chunk, score: real)

  datatype TitleMatch = TitleMatch(documentId: string, score: real)

  type Order = (Match, Match) -> bool

  // Sort keys

  predicate ById(a: Match, b: Match) {
    Text.Leq(a.chunk.chunkId, b.chunk.chunkId)
  }

  predicate ByIndex(a: Match, b: Match) {
    a.chunk.chunkIndex <= b.chunk.chunkIndex
  }

  predicate ByUpdatedDescending(a: Match, b: Match) {
    Text.Leq(b.chunk.updatedAt, a.chunk.updatedAt)
  }

  predicate ByScoreDescending(a: Match, b: Match) {
    a.score >= b.score
  }

  /** The intended order: score descending, update time descending, chunk index, chunk id. */
  predicate Precedes(a: Match, b: Match) {
    if a.score != b.score then a.score > b.score
    else if a.chunk.updatedAt != b.chunk.updatedAt then Text.Leq(b.chunk.updatedAt, a.chunk.updatedAt)
    else if a.chunk.chunkIndex != b.chunk.chunkIndex then a.chunk.chunkIndex < b.chunk.chunkIndex
    else Text.Leq(a.chunk.chunkId, b.chunk.chunkId)
  }

  // Stable sorting

  function Insert(x: Match, s: seq<Match>, leq: Order): seq<Match> {
    if s == [] || leq(x, s[0]) then [x] + s else [s[0]] + Insert(x, s[1..], leq)
  }

  /** A stable sort: equal elements keep their order. */
  function StableSort(s: seq<Match>, leq: Order): seq<Match> {
    if s == [] then [] else Insert(s[0], StableSort(s[1..], leq), leq)
  }

  ghost predicate Pairwise(s: seq<Match>, r: Order) {
    forall i, j | 0 <= i < j < |s| :: r(s[i], s[j])
  }

  ghost predicate TotalPreorder(leq: Order) {
    && (forall a, b :: leq(a, b) || leq(b, a))
    && (forall a, b, c :: leq(a, b) && leq(b, c) ==> leq(a, c))
  }

  /** `leq` first, and among equals the order `r`. */
  function Refined(leq: Order, r: Order): Order {
    (a, b) => leq(a, b) && (leq(b, a) ==> r(a, b))
  }

  lemma {:induction false} InsertPermutes(x: Match, s: seq<Match>, leq: Order)
    ensures multiset(Insert(x, s, leq)) == multiset{x} + multiset(s)
  {
    if s != [] && !leq(x, s[0]) {
      InsertPermutes(x, s[1..], leq);
      assert s == [s[0]] + s[1..];
    }
  }

  lemma {:induction false} StableSortPermutes(s: seq<Match>, leq: Order)
    ensures multiset(StableSort(s, leq)) == multiset(s)
  {
    if s != [] {
      StableSortPermutes(s[1..], leq);
      InsertPermutes(s[0], StableSort(s[1..], leq), leq);
      assert s == [s[0]] + s[1..];
    }
  }

  lemma {:induction false} PairwiseCons(a: Match, s: seq<Match>, r: Order)
    requires Pairwise(s, r) && forall y | y in s :: r(a, y)
    ensures Pairwise([a] + s, r)
  {
    forall i, j | 0 <= i < j < |[a] + s| ensures r(([a] + s)[i], ([a] + s)[j]) {
      assert s[j - 1] in s;
    }
  }

  lemma {:induction false} PairwiseTail(s: seq<Match>, r: Order)
    requires Pairwise(s, r) && s != []
    ensures Pairwise(s[1..], r) && forall y | y in s[1..] :: r(s[0], y)
  {
  }

  lemma {:induction false} InsertKeepsOrder(x: Match, s: seq<Match>, leq: Order, r: Order)
    requires TotalPreorder(leq) && Pairwise(s, Refined(leq, r))
    requires forall y | y in s :: r(x, y)
    ensures Pairwise(Insert(x, s, leq), Refined(leq, r))
  {
    if s == [] {
      return;
    }
    PairwiseTail(s, Refined(leq, r));
    if leq(x, s[0]) {
      forall y | y in s ensures Refined(leq, r)(x, y) {
        assert y == s[0] || y in s[1..];
      }
      PairwiseCons(x, s, Refined(leq, r));
    } else {
      InsertKeepsOrder(x, s[1..], leq, r);
      InsertPermutes(x, s[1..], leq);
      var rest := Insert(x, s[1..], leq);
      forall y | y in rest ensures Refined(leq, r)(s[0], y) {
        assert y in multiset(rest);
        assert y == x || y in s[1..];
      }
      PairwiseCons(s[0], rest, Refined(leq, r));
    }
  }

  /** One pass sorts by its key and leaves equal elements in the order of the passes before. */
  lemma {:induction false} StableSortRefines(s: seq<Match>, leq: Order, r: Order)
    requires TotalPreorder(leq) && Pairwise(s, r)
    ensures Pairwise(StableSort(s, leq), Refined(leq, r))
  {
    if s != [] {
      StableSortRefines(s[1..], leq, r);
      StableSortPermutes(s[1..], leq);
      forall y | y in StableSort(s[1..], leq) ensures r(s[0], y) {
        assert y in multiset(s[1..]);
        var k :| 0 <= k < |s[1..]| && s[1..][k] == y;
        assert y == s[k + 1];
      }
      InsertKeepsOrder(s[0], StableSort(s[1..], leq), leq, r);
    }
  }

  lemma {:induction false} KeysAreTotalPreorders()
    ensures TotalPreorder(ById) && TotalPreorder(ByIndex)
    ensures TotalPreorder(ByUpdatedDescending) && TotalPreorder(ByScoreDescending)
  {
    forall a: Match, b: Match ensures ById(a, b) || ById(b, a) {
      Text.LeqTotal(a.chunk.chunkId, b.chunk.chunkId);
    }
    forall a: Match, b: Match, c: Match | ById(a, b) && ById(b, c) ensures ById(a, c) {
      Text.LeqTransitive(a.chunk.chunkId, b.chunk.chunkId, c.chunk.chunkId);
    }
    forall a: Match, b: Match ensures ByUpdatedDescending(a, b) || ByUpdatedDescending(b, a) {
      Text.LeqTotal(a.chunk.updatedAt, b.chunk.updatedAt);
    }
    forall a: Match, b: Match, c: Match | ByUpdatedDescending(a, b) && ByUpdatedDescending(b, c)
      ensures ByUpdatedDescending(a, c)
    {
      Text.LeqTransitive(c.chunk.updatedAt, b.chunk.updatedAt, a.chunk.updatedAt);
    }
  }

  function FourPasses(s: seq<Match>): seq<Match> {
    StableSort(StableSort(StableSort(StableSort(s, ById), ByIndex), ByUpdatedDescending), ByScoreDescending)
  }

  /** The four passes yield the one lexicographic order, and lose or add nothing. */
  lemma {:induction false} FourPassesSort(s: seq<Match>)
    ensures Pairwise(FourPasses(s), Precedes)
    ensures multiset(FourPasses(s)) == multiset(s)
  {
    KeysAreTotalPreorders();
    var any: Order := (a, b) => true;
    var s1 := StableSort(s, ById);
    var s2 := StableSort(s1, ByIndex);
    var s3 := StableSort(s2, ByUpdatedDescending);
    var r1 := Refined(ById, any);
    var r2 := Refined(ByIndex, r1);
    var r3 := Refined(ByUpdatedDescending, r2);
    StableSortRefines(s, ById, any);
    StableSortRefines(s1, ByIndex, r1);
    StableSortRefines(s2, ByUpdatedDescending, r2);
    StableSortRefines(s3, ByScoreDescending, r3);
    StableSortPermutes(s, ById);
    StableSortPermutes(s1, ByIndex);
    StableSortPermutes(s2, ByUpdatedDescending);
    StableSortPermutes(s3, ByScoreDescending);
    forall i, j | 0 <= i < j < |FourPasses(s)| ensures Precedes(FourPasses(s)[i], FourPasses(s)[j]) {
      var a, b := FourPasses(s)[i], FourPasses(s)[j];
      assert Refined(ByScoreDescending, r3)(a, b);
      if ByUpdatedDescending(a, b) && ByUpdatedDescending(b, a) {
        Text.LeqAntisymmetric(a.chunk.updatedAt, b.chunk.updatedAt);
      }
      Text.LeqTotal(a.chunk.updatedAt, a.chunk.updatedAt);
    }
  }

  // Candidates

  /** `{match.document_id: match.score}`: the last match of a document counts. */
  function TitleScores(matches: seq<TitleMatch>): map<string, real> {
    if matches == [] then map[]
    else
      var last := matches[|matches| - 1];
      TitleScores(matches[..|matches| - 1])[last.documentId := last.score]
  }

  function TitleCandidates(scores: map<string, real>, chunks: seq<Chunk>): seq<Match> {
    if chunks == [] then []
    else
      var last := chunks[|chunks| - 1];
      TitleCandidates(scores, chunks[..|chunks| - 1]) +
      if last.documentId in scores then [Match(last, scores[last.documentId])] else []
  }

  function ChunkCandidate(scores: map<string, real>, m: Match): Match {
    Match(m.chunk, m.score + if m.chunk.documentId in scores then scores[m.chunk.documentId] else 0.0)
  }

  function ChunkCandidates(scores: map<string, real>, matches: seq<Match>): seq<Match> {
    if matches == [] then []
    else ChunkCandidates(scores, matches[..|matches| - 1]) + [ChunkCandidate(scores, matches[|matches| - 1])]
  }

  function Candidates(titleMatches: seq<TitleMatch>, chunkMatches: seq<Match>, titleChunks: seq<Chunk>): seq<Match> {
    var scores := TitleScores(titleMatches);
    TitleCandidates(scores, titleChunks) + ChunkCandidates(scores, chunkMatches)
  }

  ghost predicate DistinctIds(s: seq<Match>) {
    forall i, j | 0 <= i < j < |s| :: s[i].chunk.chunkId != s[j].chunk.chunkId
  }

  ghost predicate HasId(s: seq<Match>, chunkId: string) {
    exists i | 0 <= i < |s| :: s[i].chunk.chunkId == chunkId
  }

  /** Earlier candidates of the same chunk id have a lower score: of several at the best score, the first counts. */
  ghost predicate FirstBest(candidates: seq<Match>, r: Match) {
    exists i | 0 <= i < |candidates| ::
      candidates[i] == r
      && forall j | 0 <= j < i && candidates[j].chunk.chunkId == r.chunk.chunkId :: candidates[j].score < r.score
  }

  /** `all` holds one entry for every chunk id among the candidates, at the best score of that id. */
  ghost predicate BestPerChunk(candidates: seq<Match>, all: seq<Match>) {
    && DistinctIds(all)
    && (forall r | r in all :: r in candidates && FirstBest(candidates, r))
    && (forall c | c in candidates :: HasId(all, c.chunk.chunkId))
    && (forall r, c | r in all && c in candidates && r.chunk.chunkId == c.chunk.chunkId :: c.score <= r.score)
  }

  /** The first `topK` of the best entries in the intended order. */
  ghost predicate IsRanking(candidates: seq<Match>, topK: nat, results: seq<Match>) {
    exists all :: BestPerChunk(candidates, all) && Pairwise(all, Precedes) && results == Take(all, topK)
  }

  function Take(s: seq<Match>, n: nat): seq<Match> {
    if n <= |s| then s[..n] else s
  }

  // The ranking is determined by the candidates, in whatever order they arrive

  ghost predicate OneChunkPerId(candidates: seq<Match>) {
    forall a, b | a in candidates && b in candidates && a.chunk.chunkId == b.chunk.chunkId :: a.chunk == b.chunk
  }

  lemma {:induction false} SameBest(candidates: seq<Match>, candidates': seq<Match>, all: seq<Match>, all': seq<Match>)
    requires forall m :: m in candidates <==> m in candidates'
    requires OneChunkPerId(candidates) && BestPerChunk(candidates, all) && BestPerChunk(candidates', all')
    ensures forall m | m in all :: m in all'
  {
    forall m | m in all ensures m in all' {
      assert m in candidates';
      assert HasId(all', m.chunk.chunkId);
      var i :| 0 <= i < |all'| && all'[i].chunk.chunkId == m.chunk.chunkId;
      assert all'[i] in candidates;
      assert m.score <= all'[i].score <= m.score;
    }
  }

  lemma {:induction false} PrecedesAntisymmetric(a: Match, b: Match)
    requires Precedes(a, b) && Precedes(b, a)
    ensures a.chunk.chunkId == b.chunk.chunkId
  {
    if a.chunk.updatedAt != b.chunk.updatedAt {
      Text.LeqAntisymmetric(a.chunk.updatedAt, b.chunk.updatedAt);
    } else {
      Text.LeqAntisymmetric(a.chunk.chunkId, b.chunk.chunkId);
    }
  }

  lemma {:induction false} FirstIsSame(s: seq<Match>, t: seq<Match>)
    requires DistinctIds(s) && Pairwise(s, Precedes) && Pairwise(t, Precedes)
    requires s != [] && t != [] && s[0] in t && t[0] in s
    ensures s[0] == t[0]
  {
    var i :| 0 <= i < |t| && t[i] == s[0];
    var j :| 0 <= j < |s| && s[j] == t[0];
    if i > 0 && j > 0 {
      PrecedesAntisymmetric(s[0], t[0]);
    }
  }

  lemma {:induction false} OneOrdering(s: seq<Match>, t: seq<Match>)
    requires DistinctIds(s) && DistinctIds(t) && Pairwise(s, Precedes) && Pairwise(t, Precedes)
    requires (forall m | m in s :: m in t) && (forall m | m in t :: m in s)
    ensures s == t
  {
    assert s != [] ==> s[0] in s;
    assert t != [] ==> t[0] in t;
    if s != [] && t != [] {
      FirstIsSame(s, t);
      forall m | m in s[1..] ensures m in t[1..] {
        var k :| 0 <= k < |s| - 1 && s[1..][k] == m;
        assert m == s[k + 1] && m in t && m.chunk.chunkId != t[0].chunk.chunkId;
      }
      forall m | m in t[1..] ensures m in s[1..] {
        var k :| 0 <= k < |t| - 1 && t[1..][k] == m;
        assert m == t[k + 1] && m in s && m.chunk.chunkId != s[0].chunk.chunkId;
      }
      OneOrdering(s[1..], t[1..]);
      assert s == [s[0]] + s[1..] && t == [t[0]] + t[1..];
    }
  }

  /** Two rankings of the same candidates are equal. */
  lemma {:induction false} RankingIsUnique(candidates: seq<Match>, candidates': seq<Match>, topK: nat,
                                           results: seq<Match>, results': seq<Match>)
    requires forall m :: m in candidates <==> m in candidates'
    requires OneChunkPerId(candidates)
    requires IsRanking(candidates, topK, results) && IsRanking(candidates', topK, results')
    ensures results == results'
  {
    var all :| BestPerChunk(candidates, all) && Pairwise(all, Precedes) && results == Take(all, topK);
    var all' :| BestPerChunk(candidates', all') && Pairwise(all', Precedes) && results' == Take(all', topK);
    SameBest(candidates, candidates', all, all');
    SameBest(candidates', candidates, all', all);
    OneOrdering(all, all');
  }

  // Merging

  /** The dictionary of merged results: its keys in order of insertion, and the entry of each. */
  ghost predicate MergedSoFar(done: seq<Match>, keys: seq<string>, merged: map<string, Match>) {
    && (forall i, j | 0 <= i < j < |keys| :: keys[i] != keys[j])
    && (forall k :: k in keys <==> k in merged)
    && (forall k | k in merged :: merged[k] in done && merged[k].chunk.chunkId == k && FirstBest(done, merged[k]))
    && (forall m | m in done :: m.chunk.chunkId in merged && m.score <= merged[m.chunk.chunkId].score)
  }

  method MergeKeywordResult(keys: seq<string>, merged: map<string, Match>, result: Match, ghost done: seq<Match>)
    returns (keys': seq<string>, merged': map<string, Match>)
    requires MergedSoFar(done, keys, merged)
    ensures MergedSoFar(done + [result], keys', merged')
  {
    var id := result.chunk.chunkId;
    keys', merged' := keys, merged;
    if id !in merged {
      keys' := keys + [id];
    }
    if id !in merged || merged[id].score < result.score {
      merged' := merged[id := result];
      NewBest(done, result);
    }
    forall k | k in merged ensures FirstBest(done + [result], merged[k]) {
      StillFirst(done, merged[k], result);
    }
  }

  lemma {:induction false} StillFirst(done: seq<Match>, r: Match, result: Match)
    requires FirstBest(done, r)
    ensures FirstBest(done + [result], r)
  {
    var i :| 0 <= i < |done| && done[i] == r
             && forall j | 0 <= j < i && done[j].chunk.chunkId == r.chunk.chunkId :: done[j].score < r.score;
    assert (done + [result])[i] == r;
    assert forall j | 0 <= j < i :: (done + [result])[j] == done[j];
  }

  lemma {:induction false} NewBest(done: seq<Match>, result: Match)
    requires forall m | m in done && m.chunk.chunkId == result.chunk.chunkId :: m.score < result.score
    ensures FirstBest(done + [result], result)
  {
    var all := done + [result];
    assert all[|done|] == result;
    assert forall j | 0 <= j < |done| :: all[j] == done[j] && all[j] in done;
  }

  method CollectTitleScores(titleMatches: seq<TitleMatch>) returns (scores: map<string, real>)
    ensures scores == TitleScores(titleMatches)
  {
    scores := map[];
    for i := 0 to |titleMatches|
      invariant scores == TitleScores(titleMatches[..i])
    {
      assert titleMatches[..i + 1][..i] == titleMatches[..i];
      scores := scores[titleMatches[i].documentId := titleMatches[i].score];
    }
    assert titleMatches[..|titleMatches|] == titleMatches;
  }

  method MergeTitleChunks(scores: map<string, real>, titleChunks: seq<Chunk>)
    returns (keys: seq<string>, merged: map<string, Match>)
    ensures MergedSoFar(TitleCandidates(scores, titleChunks), keys, merged)
  {
    keys, merged := [], map[];
    for i := 0 to |titleChunks|
      invariant MergedSoFar(TitleCandidates(scores, titleChunks[..i]), keys, merged)
    {
      assert titleChunks[..i + 1][..i] == titleChunks[..i];
      ghost var done := TitleCandidates(scores, titleChunks[..i]);
      var chunk := titleChunks[i];
      if chunk.documentId in scores {
        keys, merged := MergeKeywordResult(keys, merged, Match(chunk, scores[chunk.documentId]), done);
      } else {
        assert TitleCandidates(scores, titleChunks[..i + 1]) == done;
      }
    }
    assert titleChunks[..|titleChunks|] == titleChunks;
  }

  method MergeChunkMatches(scores: map<string, real>, matches: seq<Match>, titleKeys: seq<string>,
                           titles: map<string, Match>, ghost titleCandidates: seq<Match>)
    returns (keys: seq<string>, merged: map<string, Match>)
    requires MergedSoFar(titleCandidates, titleKeys, titles)
    ensures MergedSoFar(titleCandidates + ChunkCandidates(scores, matches), keys, merged)
  {
    keys, merged := titleKeys, titles;
    assert titleCandidates + [] == titleCandidates;
    for i := 0 to |matches|
      invariant MergedSoFar(titleCandidates + ChunkCandidates(scores, matches[..i]), keys, merged)
    {
      assert matches[..i + 1][..i] == matches[..i];
      ghost var done := titleCandidates + ChunkCandidates(scores, matches[..i]);
      var m := ChunkCandidate(scores, matches[i]);
      assert done + [m] == titleCandidates + ChunkCandidates(scores, matches[..i + 1]);
      keys, merged := MergeKeywordResult(keys, merged, m, done);
    }
    assert matches[..|matches|] == matches;
  }

  /**
   Merges the matches, sorts the entries four times and cuts the list: the result is the ranking of
   the candidates, and so by `RankingIsUnique` the same for every order in which matches arrive.
   */
  method KeywordResultsFromMatches(titleMatches: seq<TitleMatch>, chunkMatches: seq<Match>, titleChunks: seq<Chunk>,
                                   topK: nat) returns (results: seq<Match>)
    ensures IsRanking(Candidates(titleMatches, chunkMatches, titleChunks), topK, results)
  {
    var scores := CollectTitleScores(titleMatches);
    var titleKeys, titles := MergeTitleChunks(scores, titleChunks);
    var keys, merged := MergeChunkMatches(scores, chunkMatches, titleKeys, titles,
                                          TitleCandidates(scores, titleChunks));
    var entries := seq(|keys|, i requires 0 <= i < |keys| && keys[i] in merged => merged[keys[i]]);
    ghost var done := Candidates(titleMatches, chunkMatches, titleChunks);
    EntriesAreBest(done, keys, merged, entries);
    var sorted := StableSort(entries, ById);
    sorted := StableSort(sorted, ByIndex);
    sorted := StableSort(sorted, ByUpdatedDescending);
    sorted := StableSort(sorted, ByScoreDescending);
    FourPassesSort(entries);
    PermutedBest(done, entries, sorted);
    results := Take(sorted, topK);
  }

  lemma {:induction false} EntriesAreBest(done: seq<Match>, keys: seq<string>, merged: map<string, Match>,
                                          entries: seq<Match>)
    requires MergedSoFar(done, keys, merged) && |entries| == |keys|
    requires forall i | 0 <= i < |keys| :: keys[i] in merged && entries[i] == merged[keys[i]]
    ensures BestPerChunk(done, entries)
  {
    forall c | c in done ensures HasId(entries, c.chunk.chunkId) {
      assert c.chunk.chunkId in keys;
      var i :| 0 <= i < |keys| && keys[i] == c.chunk.chunkId;
      assert entries[i].chunk.chunkId == c.chunk.chunkId;
    }
  }

  lemma {:induction false} DistinctOnce(s: seq<Match>, m: Match)
    requires DistinctIds(s)
    ensures multiset(s)[m] <= 1
  {
    if s != [] {
      assert s == [s[0]] + s[1..];
      DistinctOnce(s[1..], m);
      forall k | 0 <= k < |s| - 1 ensures s[1..][k] != s[0] {
        assert s[1..][k] == s[k + 1];
      }
    }
  }

  lemma {:induction false} RepeatedTwice(s: seq<Match>, i: nat, j: nat)
    requires i < j < |s| && s[i] == s[j]
    ensures multiset(s)[s[i]] >= 2
  {
    assert s == s[..j] + [s[j]] + s[j + 1..];
    assert s[i] in s[..j];
  }

  lemma {:induction false} DistinctIdsPermuted(all: seq<Match>, all': seq<Match>)
    requires DistinctIds(all) && multiset(all) == multiset(all')
    ensures DistinctIds(all')
  {
    forall i, j | 0 <= i < j < |all'| ensures all'[i].chunk.chunkId != all'[j].chunk.chunkId {
      DistinctOnce(all, all'[i]);
      if all'[i] == all'[j] {
        RepeatedTwice(all', i, j);
      }
      assert all'[i] in multiset(all) && all'[j] in multiset(all);
      var k :| 0 <= k < |all| && all[k] == all'[i];
      var l :| 0 <= l < |all| && all[l] == all'[j];
      assert k != l;
    }
  }

  lemma {:induction false} PermutedBest(candidates: seq<Match>, all: seq<Match>, all': seq<Match>)
    requires BestPerChunk(candidates, all) && multiset(all) == multiset(all')
    ensures BestPerChunk(candidates, all')
  {
    assert forall m :: m in all <==> m in multiset(all);
    assert forall m :: m in all' <==> m in multiset(all');
    DistinctIdsPermuted(all, all');
    forall c | c in candidates ensures HasId(all', c.chunk.chunkId) {
      var i :| 0 <= i < |all| && all[i].chunk.chunkId == c.chunk.chunkId;
      assert all[i] in all';
    }
  }

  // Order of arrival

  ghost predicate OneScorePerDocument(matches: seq<TitleMatch>) {
    forall a, b | a in matches && b in matches && a.documentId == b.documentId :: a.score == b.score
  }

  lemma {:induction false} TitleScoresContents(matches: seq<TitleMatch>, d: string)
    ensures d in TitleScores(matches) <==> exists m | m in matches :: m.documentId == d
    ensures d in TitleScores(matches) ==>
              exists m | m in matches :: m.documentId == d && TitleScores(matches)[d] == m.score
  {
    if matches != [] {
      var init, last := matches[..|matches| - 1], matches[|matches| - 1];
      assert matches == init + [last];
      TitleScoresContents(init, d);
      assert last in matches && forall m | m in init :: m in matches;
    }
  }

  lemma {:induction false} TitleScoresAgree(matches: seq<TitleMatch>, matches': seq<TitleMatch>)
    requires multiset(matches) == multiset(matches') && OneScorePerDocument(matches)
    ensures TitleScores(matches) == TitleScores(matches')
  {
    forall d
      ensures d in TitleScores(matches) <==> d in TitleScores(matches')
      ensures d in TitleScores(matches) ==> TitleScores(matches)[d] == TitleScores(matches')[d]
    {
      TitleScoresContents(matches, d);
      TitleScoresContents(matches', d);
      assert forall m :: m in matches <==> m in multiset(matches);
      assert forall m :: m in matches' <==> m in multiset(matches');
    }
  }

  lemma {:induction false} TitleCandidatesContents(scores: map<string, real>, chunks: seq<Chunk>, m: Match)
    ensures m in TitleCandidates(scores, chunks)
       <==> m.chunk in chunks && m.chunk.documentId in scores && m.score == scores[m.chunk.documentId]
  {
    if chunks != [] {
      assert chunks == chunks[..|chunks| - 1] + [chunks[|chunks| - 1]];
      TitleCandidatesContents(scores, chunks[..|chunks| - 1], m);
    }
  }

  lemma {:induction false} ChunkCandidatesContents(scores: map<string, real>, matches: seq<Match>, m: Match)
    ensures m in ChunkCandidates(scores, matches) <==> exists x | x in matches :: m == ChunkCandidate(scores, x)
  {
    if matches != [] {
      var init, last := matches[..|matches| - 1], matches[|matches| - 1];
      assert matches == init + [last];
      ChunkCandidatesContents(scores, init, m);
      assert last in matches && forall x | x in init :: x in matches;
    }
  }

  /** However the matches are permuted, the ranking is the same. */
  lemma {:induction false} ArrivalOrderDoesNotMatter(titles: seq<TitleMatch>, titles': seq<TitleMatch>,
                                                     matches: seq<Match>, matches': seq<Match>, chunks: seq<Chunk>,
                                                     chunks': seq<Chunk>, topK: nat, results: seq<Match>,
                                                     results': seq<Match>)
    requires multiset(titles) == multiset(titles') && multiset(matches) == multiset(matches')
    requires multiset(chunks) == multiset(chunks')
    requires OneScorePerDocument(titles) && OneChunkPerId(Candidates(titles, matches, chunks))
    requires IsRanking(Candidates(titles, matches, chunks), topK, results)
    requires IsRanking(Candidates(titles', matches', chunks'), topK, results')
    ensures results == results'
  {
    TitleScoresAgree(titles, titles');
    var scores := TitleScores(titles);
    forall m ensures m in Candidates(titles, matches, chunks) <==> m in Candidates(titles', matches', chunks') {
      TitleCandidatesContents(scores, chunks, m);
      TitleCandidatesContents(scores, chunks', m);
      ChunkCandidatesContents(scores, matches, m);
      ChunkCandidatesContents(scores, matches', m);
      assert forall x :: x in matches <==> x in multiset(matches);
      assert forall x :: x in matches' <==> x in multiset(matches');
      assert forall x :: x in chunks <==> x in multiset(chunks);
      assert forall x :: x in chunks' <==> x in multiset(chunks');
    }
    RankingIsUnique(Candidates(titles, matches, chunks), Candidates(titles', matches', chunks'), topK, results,
                    results');
  }

  // What the results are, told from the matches

  /** Match `i` is the last one of the document. */
  predicate LastTitle(titles: seq<TitleMatch>, d: string, i: nat)
    requires i < |titles|
  {
    titles[i].documentId == d && forall j | i < j < |titles| :: titles[j].documentId != d
  }

  /** The title of the document scores as the last match says. */
  ghost predicate TitleScore(titles: seq<TitleMatch>, d: string, score: real) {
    exists i | 0 <= i < |titles| :: LastTitle(titles, d, i) && titles[i].score == score
  }

  ghost predicate NoTitle(titles: seq<TitleMatch>, d: string) {
    forall i | 0 <= i < |titles| :: titles[i].documentId != d
  }

  /** A chunk of a document whose title matched scores as the title; a matched chunk scores on top of that. */
  ghost predicate Scored(titles: seq<TitleMatch>, matches: seq<Match>, chunks: seq<Chunk>, m: Match) {
    || (m.chunk in chunks && TitleScore(titles, m.chunk.documentId, m.score))
    || (exists x | x in matches && x.chunk == m.chunk ::
          || TitleScore(titles, m.chunk.documentId, m.score - x.score)
          || (NoTitle(titles, m.chunk.documentId) && m.score == x.score))
  }

  lemma {:induction false} LastTitleMore(titles: seq<TitleMatch>, d: string, score: real)
    requires titles != []
    ensures var n := |titles| - 1;
            TitleScore(titles, d, score) <==>
            if titles[n].documentId == d then titles[n].score == score else TitleScore(titles[..n], d, score)
  {
    var n := |titles| - 1;
    var init := titles[..n];
    if titles[n].documentId == d {
      assert LastTitle(titles, d, n);
    } else {
      forall i | 0 <= i < n ensures LastTitle(titles, d, i) <==> LastTitle(init, d, i) {
        assert forall j | i < j < n :: titles[j] == init[j];
      }
      if i :| 0 <= i < n && LastTitle(init, d, i) && init[i].score == score {
        assert LastTitle(titles, d, i);
      }
    }
  }

  lemma {:induction false} TitleScoresAre(titles: seq<TitleMatch>, d: string, score: real)
    ensures d in TitleScores(titles) && TitleScores(titles)[d] == score <==> TitleScore(titles, d, score)
    ensures d !in TitleScores(titles) <==> NoTitle(titles, d)
  {
    if titles != [] {
      var n := |titles| - 1;
      TitleScoresAre(titles[..n], d, score);
      LastTitleMore(titles, d, score);
      assert forall i | 0 <= i < n :: titles[..n][i] == titles[i];
    }
  }

  lemma {:induction false} CandidatesAreScored(titles: seq<TitleMatch>, matches: seq<Match>, chunks: seq<Chunk>,
                                               m: Match)
    ensures m in Candidates(titles, matches, chunks) <==> Scored(titles, matches, chunks, m)
  {
    var scores, d := TitleScores(titles), m.chunk.documentId;
    TitleScoresAre(titles, d, m.score);
    TitleCandidatesContents(scores, chunks, m);
    ChunkCandidatesContents(scores, matches, m);
    forall x | x in matches
      ensures m == ChunkCandidate(scores, x) <==>
              && x.chunk == m.chunk
              && (TitleScore(titles, d, m.score - x.score) || (NoTitle(titles, d) && m.score == x.score))
    {
      TitleScoresAre(titles, d, m.score - x.score);
    }
  }

  /** The entry of a candidate's chunk. */
  lemma {:induction false} BestEntry(candidates: seq<Match>, all: seq<Match>, m: Match) returns (best: Match)
    requires BestPerChunk(candidates, all) && m in candidates
    ensures best in all && best in candidates && best.chunk.chunkId == m.chunk.chunkId && m.score <= best.score
  {
    assert HasId(all, m.chunk.chunkId);
    var i :| 0 <= i < |all| && all[i].chunk.chunkId == m.chunk.chunkId;
    best := all[i];
  }

  lemma {:induction false} TopOfAll(all: seq<Match>, topK: nat)
    requires DistinctIds(all) && Pairwise(all, Precedes)
    ensures |Take(all, topK)| <= topK && DistinctIds(Take(all, topK)) && Pairwise(Take(all, topK), Precedes)
    ensures forall r | r in Take(all, topK) :: r in all
    ensures forall r | r in all ::
              || r in Take(all, topK)
              || (|Take(all, topK)| == topK && forall x | x in Take(all, topK) :: Precedes(x, r))
  {
    var top := Take(all, topK);
    assert forall k | 0 <= k < |top| :: top[k] == all[k] && top[k] in top;
    forall r | r in all && r !in top ensures |top| == topK && forall x | x in top :: Precedes(x, r) {
      var i :| 0 <= i < |all| && all[i] == r;
    }
  }

  /**
   Every result is an entry at the best score of its chunk, no chunk appears twice, the results are in
   order, and a matched chunk is left out only if `topK` results precede its best entry.
   */
  lemma {:induction false} RankingIsOfScored(titles: seq<TitleMatch>, matches: seq<Match>, chunks: seq<Chunk>,
                                             topK: nat, results: seq<Match>, m: Match)
    requires IsRanking(Candidates(titles, matches, chunks), topK, results) && Scored(titles, matches, chunks, m)
    ensures |results| <= topK && DistinctIds(results) && Pairwise(results, Precedes)
    ensures forall r | r in results :: Scored(titles, matches, chunks, r)
    ensures forall r | r in results && r.chunk.chunkId == m.chunk.chunkId :: m.score <= r.score
    ensures HasId(results, m.chunk.chunkId)
            || (|results| == topK && exists best ::
                  && Scored(titles, matches, chunks, best) && best.chunk.chunkId == m.chunk.chunkId
                  && m.score <= best.score && forall r | r in results :: Precedes(r, best))
  {
    var candidates := Candidates(titles, matches, chunks);
    var all: seq<Match> :| BestPerChunk(candidates, all) && Pairwise(all, Precedes) && results == Take(all, topK);
    TopOfAll(all, topK);
    CandidatesAreScored(titles, matches, chunks, m);
    forall r | r in results ensures Scored(titles, matches, chunks, r) {
      CandidatesAreScored(titles, matches, chunks, r);
    }
    var best := BestEntry(candidates, all, m);
    CandidatesAreScored(titles, matches, chunks, best);
    if best in results {
      var k :| 0 <= k < |results| && results[k] == best;
    }
  }
}
