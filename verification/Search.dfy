/** Talent search: merging two hit lists, reciprocal rank fusion, sorting and truncation.
    Scores are exact reals. */
module Search {
  import opened Basics

  // A row of the full-text search (lower bm25 is better) or of the vector search (lower distance is better).
  datatype Hit = Hit(candidate: string, score: real)

  datatype SnapshotInfo = SnapshotInfo(nodeId: string, endpoint: string, displayName: string, active: bool,
                                       ingestedAt: int)

  datatype Pointer = Pointer(candidate: string, info: SnapshotInfo, bm25: real, vec: real, rank: nat)

  const RRF_K: real := 60.0

  /** A limit from 1 to 100 is kept, any other gives way to 20. */
  function EffectiveLimit(limit: int): (l: nat)
    ensures 0 < l <= 100
    ensures l == limit <==> 0 < limit <= 100
    ensures l == limit || l == 20
  {
    if limit <= 0 || limit > 100 then 20 else limit
  }

  // Ranks count from 1; rank 0 stands for absence from a list.
  function RrfScore(k: real, bm25Rank: nat, vecRank: nat): real
    requires k > 0.0
  {
    (if bm25Rank > 0 then 1.0 / (k + bm25Rank as real) else 0.0)
    + (if vecRank > 0 then 1.0 / (k + vecRank as real) else 0.0)
  }

  predicate Listed(hits: seq<Hit>, candidate: string) {
    exists i :: 0 <= i < |hits| && hits[i].candidate == candidate
  }

  /** The 1-based position of the last hit for the candidate: a repeated candidate keeps its worst rank. */
  function RankIn(hits: seq<Hit>, candidate: string): (rank: nat)
    ensures rank <= |hits|
    ensures rank > 0 ==> hits[rank - 1].candidate == candidate
    ensures forall i :: rank <= i < |hits| ==> hits[i].candidate != candidate
  {
    if hits == [] then 0
    else if hits[|hits| - 1].candidate == candidate then |hits|
    else RankIn(hits[..|hits| - 1], candidate)
  }

  /** The score the candidate's last hit carries, zero without a hit. */
  function ScoreIn(hits: seq<Hit>, candidate: string): real {
    if RankIn(hits, candidate) == 0 then 0.0 else hits[RankIn(hits, candidate) - 1].score
  }

  function Fused(bm25: seq<Hit>, vec: seq<Hit>, candidate: string): real {
    RrfScore(RRF_K, RankIn(bm25, candidate), RankIn(vec, candidate))
  }

  /** `ys` lists the elements of `xs` in ascending key order, in the order given by `perm`. */
  ghost predicate Sorting<T>(xs: seq<T>, ys: seq<T>, perm: seq<nat>, key: T -> real) {
    && |ys| == |xs| == |perm|
    && (forall i :: 0 <= i < |perm| ==> perm[i] < |xs| && ys[i] == xs[perm[i]])
    && (forall i, j :: 0 <= i < j < |perm| ==> perm[i] != perm[j])
    && (forall k: nat :: k < |xs| ==> k in perm)
    && (forall i, j :: 0 <= i < j < |ys| ==> key(ys[i]) <= key(ys[j]))
  }

  /** `ys` is some ascending rearrangement of `xs`. */
  ghost predicate IsSort<T>(xs: seq<T>, ys: seq<T>, key: T -> real) {
    exists perm :: Sorting(xs, ys, perm, key)
  }

  /** Inserting at `p` moves the element at `i` one place up unless it stands before `p`. */
  lemma InsertedAt<T>(s: seq<T>, p: nat, x: T)
    requires p <= |s|
    ensures var s' := s[..p] + [x] + s[p..];
            && |s'| == |s| + 1 && s'[p] == x
            && (forall i :: 0 <= i < p ==> s'[i] == s[i])
            && (forall i :: p < i < |s'| ==> s'[i] == s[i - 1])
  {
  }

  lemma InsertPermutes(perm: seq<nat>, p: nat)
    requires p <= |perm| && forall k: nat :: k < |perm| ==> k in perm
    ensures forall k: nat :: k < |perm| + 1 ==> k in perm[..p] + [|perm|] + perm[p..]
  {
    var perm' := perm[..p] + [|perm|] + perm[p..];
    InsertedAt(perm, p, |perm|);
    forall k: nat | k < |perm'|
      ensures k in perm'
    {
      if k < |perm| {
        assert k in perm;
        var i :| 0 <= i < |perm| && perm[i] == k;
        assert perm'[if i < p then i else i + 1] == k;
      } else {
        assert perm'[p] == k;
      }
    }
  }

  lemma InsertSorted<T>(xs: seq<T>, ys: seq<T>, perm: seq<nat>, key: T -> real, x: T, p: nat)
    requires Sorting(xs, ys, perm, key) && p <= |ys|
    requires forall i :: 0 <= i < p ==> key(ys[i]) < key(x)
    requires p < |ys| ==> key(x) <= key(ys[p])
    ensures Sorting(xs + [x], ys[..p] + [x] + ys[p..], perm[..p] + [|xs|] + perm[p..], key)
  {
    var xs', ys', perm' := xs + [x], ys[..p] + [x] + ys[p..], perm[..p] + [|xs|] + perm[p..];
    InsertPermutes(perm, p);
    InsertedAt(ys, p, x);
    InsertedAt(perm, p, |xs|);
    forall i | 0 <= i < |perm'|
      ensures perm'[i] < |xs'| && ys'[i] == xs'[perm'[i]]
    {
    }
    forall i, j | 0 <= i < j < |perm'|
      ensures perm'[i] != perm'[j] && key(ys'[i]) <= key(ys'[j])
    {
    }
  }

  /** The place of `x` in an ascending list. */
  method FindPlace<T>(ys: seq<T>, key: T -> real, x: T) returns (p: nat)
    ensures p <= |ys|
    ensures forall i :: 0 <= i < p ==> key(ys[i]) < key(x)
    ensures p < |ys| ==> key(x) <= key(ys[p])
  {
    p := 0;
    while p < |ys| && key(ys[p]) < key(x)
      invariant 0 <= p <= |ys|
      invariant forall i :: 0 <= i < p ==> key(ys[i]) < key(x)
    {
      p := p + 1;
    }
  }

  /** A sort about which nothing is known but its result: ties come out in any order. */
  method SortBy<T>(xs: seq<T>, key: T -> real) returns (ys: seq<T>)
    ensures IsSort(xs, ys, key)
  {
    ys := [];
    ghost var perm: seq<nat> := [];
    for n := 0 to |xs|
      invariant Sorting(xs[..n], ys, perm, key)
    {
      var p := FindPlace(ys, key, xs[n]);
      InsertSorted(xs[..n], ys, perm, key, xs[n], p);
      assert xs[..n + 1] == xs[..n] + [xs[n]];
      ys, perm := ys[..p] + [xs[n]] + ys[p..], perm[..p] + [n] + perm[p..];
    }
    assert xs[..|xs|] == xs;
  }

  // ----- What a search returns -----

  /** A candidate that some list names and that has a snapshot. */
  predicate Retrieved(bm25: seq<Hit>, vec: seq<Hit>, info: map<string, SnapshotInfo>, candidate: string) {
    candidate in info && (Listed(bm25, candidate) || Listed(vec, candidate))
  }

  predicate InResult(result: seq<Pointer>, candidate: string) {
    exists i :: 0 <= i < |result| && result[i].candidate == candidate
  }

  /** The entries are distinct retrieved candidates with the data of their snapshot and hits, ranked
      1, 2, ..., at most `limit` of them, and all retrieved candidates if there is room. */
  ghost predicate IsSelection(bm25: seq<Hit>, vec: seq<Hit>, info: map<string, SnapshotInfo>, limit: nat,
                              result: seq<Pointer>)
  {
    && |result| <= limit
    && (forall i :: 0 <= i < |result| ==>
          var p := result[i];
          && p.rank == i + 1
          && Retrieved(bm25, vec, info, p.candidate)
          && p == Pointer(p.candidate, info[p.candidate], ScoreIn(bm25, p.candidate), ScoreIn(vec, p.candidate), i + 1))
    && (forall i, j :: 0 <= i < j < |result| ==> result[i].candidate != result[j].candidate)
    && (|result| < limit ==> forall c :: Retrieved(bm25, vec, info, c) ==> InResult(result, c))
  }

  /** The entries come in ascending order of `cost`, and no retrieved candidate left out costs less
      than one that was kept. */
  ghost predicate IsTop(bm25: seq<Hit>, vec: seq<Hit>, info: map<string, SnapshotInfo>, result: seq<Pointer>,
                        cost: string -> real)
  {
    && (forall i, j :: 0 <= i < j < |result| ==> cost(result[i].candidate) <= cost(result[j].candidate))
    && (forall c, i :: Retrieved(bm25, vec, info, c) && !InResult(result, c) && 0 <= i < |result| ==>
          cost(result[i].candidate) <= cost(c))
  }

  function HitScore(h: Hit): real {
    h.score
  }

  /** The entries are the best by fused score, for the ranks some sort of each hit list gives. */
  ghost predicate IsFusedTop(bm25: seq<Hit>, vec: seq<Hit>, info: map<string, SnapshotInfo>, result: seq<Pointer>) {
    exists bm25Sorted, vecSorted ::
      && IsSort(bm25, bm25Sorted, HitScore) && IsSort(vec, vecSorted, HitScore)
      && IsTop(bm25, vec, info, result, c => -Fused(bm25Sorted, vecSorted, c))
  }

  /** The answer of a search: by fused score if the vector search found anything, otherwise by text score. */
  ghost predicate IsRanking(bm25: seq<Hit>, vec: seq<Hit>, info: map<string, SnapshotInfo>, limit: nat,
                            result: seq<Pointer>)
  {
    && IsSelection(bm25, vec, info, limit, result)
    && (vec == [] ==> IsTop(bm25, vec, info, result, c => ScoreIn(bm25, c)))
    && (vec != [] ==> IsFusedTop(bm25, vec, info, result))
  }

  /** The distinct candidates of `hits`, after those already in `ids`, in order of first appearance. */
  method CollectIds(hits: seq<Hit>, ids: seq<string>) returns (out: seq<string>)
    requires forall i, j :: 0 <= i < j < |ids| ==> ids[i] != ids[j]
    ensures ids <= out
    ensures forall i, j :: 0 <= i < j < |out| ==> out[i] != out[j]
    ensures forall c :: c in out <==> c in ids || Listed(hits, c)
  {
    out := ids;
    for n := 0 to |hits|
      invariant ids <= out
      invariant forall i, j :: 0 <= i < j < |out| ==> out[i] != out[j]
      invariant forall c :: c in out <==> c in ids || exists i :: 0 <= i < n && hits[i].candidate == c
    {
      if hits[n].candidate !in out {
        out := out + [hits[n].candidate];
      }
    }
  }

  /** Reading a map the way the source does: a missing key reads as zero. */
  function RankOf(ranks: map<string, nat>, c: string): nat {
    if c in ranks then ranks[c] else 0
  }

  function ScoreOf(scores: map<string, real>, c: string): real {
    if c in scores then scores[c] else 0.0
  }

  method RankMap(sorted: seq<Hit>) returns (ranks: map<string, nat>)
    ensures forall c :: RankOf(ranks, c) == RankIn(sorted, c)
  {
    ranks := map[];
    for n := 0 to |sorted|
      invariant forall c :: RankOf(ranks, c) == RankIn(sorted[..n], c)
    {
      assert sorted[..n + 1][..n] == sorted[..n];
      ranks := ranks[sorted[n].candidate := n + 1];
    }
    assert sorted[..|sorted|] == sorted;
  }

  lemma ScoreOfOneMore(hits: seq<Hit>, n: nat, c: string)
    requires n < |hits|
    ensures ScoreIn(hits[..n + 1], c) == if hits[n].candidate == c then hits[n].score else ScoreIn(hits[..n], c)
  {
    assert hits[..n + 1][..n] == hits[..n];
  }

  method ScoreMap(hits: seq<Hit>) returns (scores: map<string, real>)
    ensures forall c :: ScoreOf(scores, c) == ScoreIn(hits, c)
    ensures scores == map[] <==> hits == []
  {
    scores := map[];
    for n := 0 to |hits|
      invariant forall c :: ScoreOf(scores, c) == ScoreIn(hits[..n], c)
      invariant scores == map[] <==> n == 0
    {
      ghost var before := scores;
      scores := scores[hits[n].candidate := hits[n].score];
      forall c
        ensures ScoreOf(scores, c) == ScoreIn(hits[..n + 1], c)
      {
        ScoreOfOneMore(hits, n, c);
        assert ScoreOf(before, c) == ScoreIn(hits[..n], c);
      }
      assert hits[n].candidate in scores;
    }
    assert hits[..|hits|] == hits;
  }

  /** A pointer for every listed candidate with a snapshot. */
  method BuildPointers(bm25: map<string, real>, vec: map<string, real>, ids: seq<string>,
                       info: map<string, SnapshotInfo>)
    returns (pointers: seq<Pointer>)
    requires forall i, j :: 0 <= i < j < |ids| ==> ids[i] != ids[j]
    ensures forall i :: 0 <= i < |pointers| ==>
              var c := pointers[i].candidate;
              c in ids && c in info && pointers[i] == Pointer(c, info[c], ScoreOf(bm25, c), ScoreOf(vec, c), 0)
    ensures forall i, j :: 0 <= i < j < |pointers| ==> pointers[i].candidate != pointers[j].candidate
    ensures forall c :: c in ids && c in info ==> InResult(pointers, c)
  {
    pointers := [];
    for n := 0 to |ids|
      invariant forall i :: 0 <= i < |pointers| ==>
                  var c := pointers[i].candidate;
                  && c in ids[..n] && c in info
                  && pointers[i] == Pointer(c, info[c], ScoreOf(bm25, c), ScoreOf(vec, c), 0)
      invariant forall i, j :: 0 <= i < j < |pointers| ==> pointers[i].candidate != pointers[j].candidate
      invariant forall k :: 0 <= k < n && ids[k] in info ==> InResult(pointers, ids[k])
    {
      var c := ids[n];
      if c in info {
        ghost var before := pointers;
        pointers := pointers + [Pointer(c, info[c], ScoreOf(bm25, c), ScoreOf(vec, c), 0)];
        forall k | 0 <= k < n + 1 && ids[k] in info
          ensures InResult(pointers, ids[k])
        {
          if k < n {
            var i :| 0 <= i < |before| && before[i].candidate == ids[k];
            assert pointers[i].candidate == ids[k];
          } else {
            assert pointers[|before|].candidate == ids[k];
          }
        }
      }
    }
  }

  /** Cuts the sorted pointers at the limit and writes the ranks. */
  method Truncate(sorted: seq<Pointer>, limit: nat) returns (result: seq<Pointer>)
    ensures |result| == if |sorted| > limit then limit else |sorted|
    ensures forall i :: 0 <= i < |result| ==> result[i] == sorted[i].(rank := i + 1)
  {
    result := if |sorted| > limit then sorted[..limit] else sorted;
    for i := 0 to |result|
      invariant |result| == if |sorted| > limit then limit else |sorted|
      invariant forall k :: 0 <= k < i ==> result[k] == sorted[k].(rank := k + 1)
      invariant forall k :: i <= k < |result| ==> result[k] == sorted[k]
    {
      result := result[i := result[i].(rank := i + 1)];
    }
  }

  lemma SortedPointersAreTop(bm25: seq<Hit>, vec: seq<Hit>, info: map<string, SnapshotInfo>,
                             pointers: seq<Pointer>, sorted: seq<Pointer>, key: Pointer -> real,
                             limit: nat, result: seq<Pointer>, cost: string -> real)
    requires IsSort(pointers, sorted, key)
    requires forall i :: 0 <= i < |pointers| ==> key(pointers[i]) == cost(pointers[i].candidate)
    requires forall i :: 0 <= i < |pointers| ==>
               var c := pointers[i].candidate;
               Retrieved(bm25, vec, info, c)
               && pointers[i] == Pointer(c, info[c], ScoreIn(bm25, c), ScoreIn(vec, c), 0)
    requires forall i, j :: 0 <= i < j < |pointers| ==> pointers[i].candidate != pointers[j].candidate
    requires forall c :: Retrieved(bm25, vec, info, c) ==> InResult(pointers, c)
    requires |result| == if |sorted| > limit then limit else |sorted|
    requires forall i :: 0 <= i < |result| ==> result[i] == sorted[i].(rank := i + 1)
    ensures IsSelection(bm25, vec, info, limit, result) && IsTop(bm25, vec, info, result, cost)
  {
    var perm :| Sorting(pointers, sorted, perm, key);
    forall c | Retrieved(bm25, vec, info, c)
      ensures || InResult(result, c)
              || (|result| == limit && forall i :: 0 <= i < |result| ==> cost(result[i].candidate) <= cost(c))
    {
      var k: nat :| k < |pointers| && pointers[k].candidate == c;
      assert k in perm;
      var j :| 0 <= j < |perm| && perm[j] == k;
      assert sorted[j].candidate == c;
      if j < |result| {
        assert result[j].candidate == c;
      } else {
        forall i | 0 <= i < |result|
          ensures cost(result[i].candidate) <= cost(c)
        {
          assert key(sorted[i]) <= key(sorted[j]);
        }
      }
    }
    forall i, j | 0 <= i < j < |result|
      ensures result[i].candidate != result[j].candidate && cost(result[i].candidate) <= cost(result[j].candidate)
    {
      assert perm[i] != perm[j];
      assert key(sorted[i]) <= key(sorted[j]);
    }
  }

  /** The search proper. `vecHits` is none without a query vector or when the vector search failed;
      `info` maps each candidate with a snapshot to one of its snapshots. */
  method SearchTalent(bm25Hits: seq<Hit>, vecHits: Option<seq<Hit>>, info: map<string, SnapshotInfo>, limit: int)
    returns (result: seq<Pointer>)
    ensures IsRanking(bm25Hits, if vecHits.Some? then vecHits.value else [], info, EffectiveLimit(limit), result)
  {
    var vec := if vecHits.Some? then vecHits.value else [];
    var bm25Scores := ScoreMap(bm25Hits);
    var vecScores := ScoreMap(vec);
    var ids := CollectIds(bm25Hits, []);
    ids := CollectIds(vec, ids);
    var pointers := BuildPointers(bm25Scores, vecScores, ids, info);
    if vecScores != map[] {
      var byText := SortBy(bm25Hits, HitScore);
      var byVector := SortBy(vec, HitScore);
      var bm25Rank := RankMap(byText);
      var vecRank := RankMap(byVector);
      var key := (p: Pointer) => -RrfScore(RRF_K, RankOf(bm25Rank, p.candidate), RankOf(vecRank, p.candidate));
      var sorted := SortBy(pointers, key);
      result := Truncate(sorted, EffectiveLimit(limit));
      SortedPointersAreTop(bm25Hits, vec, info, pointers, sorted, key, EffectiveLimit(limit), result,
                           c => -Fused(byText, byVector, c));
    } else {
      var key := (p: Pointer) => p.bm25;
      var sorted := SortBy(pointers, key);
      result := Truncate(sorted, EffectiveLimit(limit));
      SortedPointersAreTop(bm25Hits, vec, info, pointers, sorted, key, EffectiveLimit(limit), result,
                           c => ScoreIn(bm25Hits, c));
    }
  }

  // ----- The arithmetic of reciprocal rank fusion -----

  predicate AtLeastAsGood(rank: nat, other: nat) {
    other == 0 || 0 < rank <= other
  }

  predicate StrictlyBetter(rank: nat, other: nat) {
    AtLeastAsGood(rank, other) && rank != other
  }

  lemma ReciprocalIsAntitone(a: real, b: real)
    requires 0.0 < a < b
    ensures 1.0 / a > 1.0 / b > 0.0
  {
    assert 1.0 / a - 1.0 / b == (b - a) / (a * b);
  }

  lemma TermIsMonotone(k: real, rank: nat, other: nat)
    requires k > 0.0 && AtLeastAsGood(rank, other)
    ensures RrfScore(k, rank, 0) >= RrfScore(k, other, 0)
    ensures rank != other ==> RrfScore(k, rank, 0) > RrfScore(k, other, 0)
  {
    if other == 0 {
      if rank > 0 {
        ReciprocalIsAntitone(k + rank as real, k + rank as real + 1.0);
      }
    } else if rank < other {
      ReciprocalIsAntitone(k + rank as real, k + other as real);
    }
  }

  /** At least as good a rank in both lists and strictly better in one gives a strictly higher score;
      absence is the worst rank. */
  lemma BetterRanksScoreHigher(k: real, b: nat, v: nat, b': nat, v': nat)
    requires k > 0.0 && AtLeastAsGood(b, b') && AtLeastAsGood(v, v')
    requires StrictlyBetter(b, b') || StrictlyBetter(v, v')
    ensures RrfScore(k, b, v) > RrfScore(k, b', v')
  {
    TermIsMonotone(k, b, b');
    TermIsMonotone(k, v, v');
  }

  lemma TermAtLeast(rank: nat)
    requires 0 < rank <= 61
    ensures 1.0 / (RRF_K + rank as real) >= 1.0 / 121.0
  {
    if rank < 61 {
      ReciprocalIsAntitone(RRF_K + rank as real, 121.0);
    }
  }

  lemma TermAtMost(rank: nat)
    requires 0 < rank
    ensures 1.0 / (RRF_K + rank as real) <= 1.0 / 61.0
  {
    if rank > 1 {
      ReciprocalIsAntitone(61.0, RRF_K + rank as real);
    }
  }

  /** A candidate in both lists at ranks up to 61 beats every candidate in only one list; 61 is the
      last such rank, for at 62 it only ties with the best of a single list. */
  lemma BothListsBeatOne(b: nat, v: nat, w: nat)
    requires 0 < b <= 61 && 0 < v <= 61
    ensures RrfScore(RRF_K, b, v) > RrfScore(RRF_K, w, 0) && RrfScore(RRF_K, b, v) > RrfScore(RRF_K, 0, w)
    ensures RrfScore(RRF_K, 62, 62) == RrfScore(RRF_K, 1, 0)
  {
    TermAtLeast(b);
    TermAtLeast(v);
    if w > 0 {
      TermAtMost(w);
    }
  }

  lemma CheaperComesFirst(bm25: seq<Hit>, vec: seq<Hit>, info: map<string, SnapshotInfo>, result: seq<Pointer>,
                          cost: string -> real, p: string, j: nat)
    requires IsTop(bm25, vec, info, result, cost)
    requires Retrieved(bm25, vec, info, p) && j < |result| && cost(p) < cost(result[j].candidate)
    ensures exists i :: 0 <= i < j && result[i].candidate == p
  {
    assert InResult(result, p);
    var i :| 0 <= i < |result| && result[i].candidate == p;
    assert i < j;
  }

  lemma FusedBothBeatsOne(bm25: seq<Hit>, vec: seq<Hit>, p: string, q: string)
    requires 0 < RankIn(bm25, p) <= 61 && 0 < RankIn(vec, p) <= 61
    requires RankIn(bm25, q) == 0 || RankIn(vec, q) == 0
    ensures Fused(bm25, vec, p) > Fused(bm25, vec, q)
  {
    BothListsBeatOne(RankIn(bm25, p), RankIn(vec, p), if RankIn(bm25, q) == 0 then RankIn(vec, q) else RankIn(bm25, q));
  }

  /** In a fused result a candidate found by both searches within rank 61 stands before every candidate
      found by one search only, and is never cut in favour of one. */
  lemma BothListsComeFirst(bm25: seq<Hit>, vec: seq<Hit>, info: map<string, SnapshotInfo>, result: seq<Pointer>,
                           bm25Sorted: seq<Hit>, vecSorted: seq<Hit>, p: string, j: nat)
    requires IsTop(bm25, vec, info, result, c => -Fused(bm25Sorted, vecSorted, c))
    requires Retrieved(bm25, vec, info, p) && j < |result|
    requires 0 < RankIn(bm25Sorted, p) <= 61 && 0 < RankIn(vecSorted, p) <= 61
    requires RankIn(bm25Sorted, result[j].candidate) == 0 || RankIn(vecSorted, result[j].candidate) == 0
    ensures exists i :: 0 <= i < j && result[i].candidate == p
  {
    FusedBothBeatsOne(bm25Sorted, vecSorted, p, result[j].candidate);
    CheaperComesFirst(bm25, vec, info, result, c => -Fused(bm25Sorted, vecSorted, c), p, j);
  }
}
