/** In which order a search answers, told from the scores of the hits alone. */
module SearchOrder {
  import opened Basics
  import opened Search

  /** The hits rank `p` before `q`: every hit of `p` has a lower, that is better, score than every hit of `q`, and
      `p` is found if `q` is. */
  ghost predicate BetterIn(hits: seq<Hit>, p: string, q: string) {
    && (Listed(hits, q) ==> Listed(hits, p))
    && (forall i, j :: 0 <= i < |hits| && 0 <= j < |hits| && hits[i].candidate == p && hits[j].candidate == q ==>
                         hits[i].score < hits[j].score)
  }

  lemma RankOfListed(hits: seq<Hit>, c: string)
    ensures Listed(hits, c) <==> RankIn(hits, c) > 0
  {
    if Listed(hits, c) {
      var i :| 0 <= i < |hits| && hits[i].candidate == c;
      assert i < RankIn(hits, c);
    }
  }

  lemma SortedIsListed(hits: seq<Hit>, sorted: seq<Hit>, c: string)
    requires IsSort(hits, sorted, HitScore)
    ensures Listed(hits, c) <==> Listed(sorted, c)
  {
    var perm :| Sorting(hits, sorted, perm, HitScore);
    if Listed(hits, c) {
      var k: nat :| k < |hits| && hits[k].candidate == c;
      assert k in perm;
      var i :| 0 <= i < |perm| && perm[i] == k;
      assert sorted[i].candidate == c;
    }
    if Listed(sorted, c) {
      var i :| 0 <= i < |sorted| && sorted[i].candidate == c;
      assert hits[perm[i]].candidate == c;
    }
  }

  /** Sorting puts all hits of `p` before all hits of `q`. */
  lemma BetterIsEarlier(hits: seq<Hit>, sorted: seq<Hit>, p: string, q: string, i: nat, j: nat)
    requires IsSort(hits, sorted, HitScore) && BetterIn(hits, p, q)
    requires i < |sorted| && j < |sorted| && sorted[i].candidate == p && sorted[j].candidate == q
    ensures i < j
  {
    var perm :| Sorting(hits, sorted, perm, HitScore);
    assert sorted[i] == hits[perm[i]] && sorted[j] == hits[perm[j]];
    assert hits[perm[i]].score < hits[perm[j]].score;
    assert j < i ==> HitScore(sorted[j]) <= HitScore(sorted[i]);
  }

  lemma BetterRanks(hits: seq<Hit>, sorted: seq<Hit>, p: string, q: string)
    requires IsSort(hits, sorted, HitScore) && BetterIn(hits, p, q)
    ensures AtLeastAsGood(RankIn(sorted, p), RankIn(sorted, q))
    ensures Listed(hits, q) ==> StrictlyBetter(RankIn(sorted, p), RankIn(sorted, q))
  {
    SortedIsListed(hits, sorted, p);
    SortedIsListed(hits, sorted, q);
    RankOfListed(sorted, p);
    RankOfListed(sorted, q);
    if Listed(hits, q) {
      BetterIsEarlier(hits, sorted, p, q, RankIn(sorted, p) - 1, RankIn(sorted, q) - 1);
    }
  }

  lemma BetterIsFusedFirst(bm25: seq<Hit>, vec: seq<Hit>, info: map<string, SnapshotInfo>, result: seq<Pointer>,
                           p: string, j: nat)
    requires IsFusedTop(bm25, vec, info, result) && Retrieved(bm25, vec, info, p) && j < |result|
    requires Retrieved(bm25, vec, info, result[j].candidate)
    requires BetterIn(bm25, p, result[j].candidate) && BetterIn(vec, p, result[j].candidate)
    ensures exists i :: 0 <= i < j && result[i].candidate == p
  {
    var bm25Sorted, vecSorted :|
      && IsSort(bm25, bm25Sorted, HitScore) && IsSort(vec, vecSorted, HitScore)
      && IsTop(bm25, vec, info, result, c => -Fused(bm25Sorted, vecSorted, c));
    var q := result[j].candidate;
    BetterRanks(bm25, bm25Sorted, p, q);
    BetterRanks(vec, vecSorted, p, q);
    BetterRanksScoreHigher(RRF_K, RankIn(bm25Sorted, p), RankIn(vecSorted, p), RankIn(bm25Sorted, q),
                           RankIn(vecSorted, q));
    CheaperComesFirst(bm25, vec, info, result, c => -Fused(bm25Sorted, vecSorted, c), p, j);
  }

  lemma BetterIsTextFirst(bm25: seq<Hit>, vec: seq<Hit>, info: map<string, SnapshotInfo>, result: seq<Pointer>,
                          p: string, j: nat)
    requires IsTop(bm25, vec, info, result, c => ScoreIn(bm25, c)) && vec == []
    requires Retrieved(bm25, vec, info, p) && j < |result| && Retrieved(bm25, vec, info, result[j].candidate)
    requires BetterIn(bm25, p, result[j].candidate)
    ensures exists i :: 0 <= i < j && result[i].candidate == p
  {
    RankOfListed(bm25, p);
    RankOfListed(bm25, result[j].candidate);
    CheaperComesFirst(bm25, vec, info, result, c => ScoreIn(bm25, c), p, j);
  }

  /** Lower scores are better: in the answer of any search, a candidate with a snapshot that both searches rank before
      another one stands before it, and is never cut for it. */
  lemma BetterHitsComeFirst(bm25: seq<Hit>, vec: seq<Hit>, info: map<string, SnapshotInfo>, limit: nat,
                            result: seq<Pointer>, p: string, j: nat)
    requires IsRanking(bm25, vec, info, limit, result)
    requires p in info && (Listed(bm25, p) || Listed(vec, p)) && j < |result|
    requires BetterIn(bm25, p, result[j].candidate) && BetterIn(vec, p, result[j].candidate)
    ensures exists i :: 0 <= i < j && result[i].candidate == p
  {
    if vec == [] {
      BetterIsTextFirst(bm25, vec, info, result, p, j);
    } else {
      BetterIsFusedFirst(bm25, vec, info, result, p, j);
    }
  }

  /** Candidate `c` is shown with the score of its last hit, or with zero if it has none. */
  ghost predicate ShownWith(hits: seq<Hit>, c: string, score: real) {
    && (Listed(hits, c) ==> exists k :: IsLastHit(hits, c, k) && score == hits[k].score)
    && (!Listed(hits, c) ==> score == 0.0)
  }

  predicate IsLastHit(hits: seq<Hit>, c: string, k: int) {
    0 <= k < |hits| && hits[k].candidate == c && forall j :: k < j < |hits| ==> hits[j].candidate != c
  }

  lemma ScoreIsShown(hits: seq<Hit>, c: string)
    ensures ShownWith(hits, c, ScoreIn(hits, c))
  {
    RankOfListed(hits, c);
    if Listed(hits, c) {
      assert IsLastHit(hits, c, RankIn(hits, c) - 1);
    }
  }

  /** Every entry of an answer shows its place, its candidate's snapshot, and the candidate's own scores; every
      candidate that was found and has a snapshot is there, unless the answer is full. */
  lemma EntriesAreTrue(bm25: seq<Hit>, vec: seq<Hit>, info: map<string, SnapshotInfo>, limit: nat,
                       result: seq<Pointer>)
    requires IsRanking(bm25, vec, info, limit, result)
    ensures |result| <= limit
    ensures forall i :: 0 <= i < |result| ==>
              var p := result[i];
              && p.rank == i + 1 && p.candidate in info && p.info == info[p.candidate]
              && (Listed(bm25, p.candidate) || Listed(vec, p.candidate))
              && ShownWith(bm25, p.candidate, p.bm25) && ShownWith(vec, p.candidate, p.vec)
    ensures |result| < limit ==>
              forall c :: c in info && (Listed(bm25, c) || Listed(vec, c)) ==> InResult(result, c)
  {
    forall i | 0 <= i < |result|
      ensures ShownWith(bm25, result[i].candidate, result[i].bm25) && ShownWith(vec, result[i].candidate, result[i].vec)
    {
      ScoreIsShown(bm25, result[i].candidate);
      ScoreIsShown(vec, result[i].candidate);
    }
  }
}
