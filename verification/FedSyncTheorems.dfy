/** What any run of sync rounds with a peer leaves in the local table. The peer's table may grow between
    rounds and single inserts may fail. */
module FedSyncTheorems {
  import opened FedSync

  // ----- Which rows successive rounds receive -----

  // One round with the peer: how many rows of its table were there by then, and which inserts failed.
  datatype Visit = Visit(seen: nat, failed: set<nat>)

  function Min(a: nat, b: nat): nat {
    if a <= b then a else b
  }

  /** `remote` is the peer's table at the end of a run; a visit saw as much of it as was there. */
  function Seen(remote: seq<PeerSnap>, v: Visit): seq<PeerSnap> {
    remote[..Min(v.seen, |remote|)]
  }

  function KeptIn(remote: seq<PeerSnap>, since: int, v: Visit): seq<PeerSnap> {
    Kept(Page(Seen(remote, v), since), v.failed)
  }

  /** The cursor after the visits: the timestamp of the last row they kept. */
  function Horizon(remote: seq<PeerSnap>, visits: seq<Visit>): int {
    if visits == [] then 0 else
    var n := |visits| - 1;
    var since := Horizon(remote, visits[..n]);
    var kept := KeptIn(remote, since, visits[n]);
    if kept == [] then since else kept[|kept| - 1].ingestedAt
  }

  /** Everything the visits keep. */
  function Received(remote: seq<PeerSnap>, visits: seq<Visit>): seq<PeerSnap> {
    if visits == [] then [] else
    var n := |visits| - 1;
    Received(remote, visits[..n]) + KeptIn(remote, Horizon(remote, visits[..n]), visits[n])
  }

  /** The rows before this position are no newer than the cursor and will not be served again. */
  function Passed(remote: seq<PeerSnap>, visits: seq<Visit>): (k: nat)
    ensures k <= |remote|
  {
    FirstAfter(remote, Horizon(remote, visits))
  }

  lemma PageOf(remote: seq<PeerSnap>, since: int)
    requires Ascending(remote)
    ensures Ascending(Page(remote, since))
    ensures forall i :: 0 <= i < |Page(remote, since)| ==> Page(remote, since)[i].ingestedAt > since
  {
    FirstAfterSplits(remote, since, 0);
  }

  /** Where a kept row stood on the page. */
  lemma {:induction false} KeptAt(page: seq<PeerSnap>, failed: set<nat>, j: nat) returns (i: nat)
    requires j < |Kept(page, failed)|
    ensures i < |page| && i !in failed && page[i] == Kept(page, failed)[j]
  {
    var n := |page| - 1;
    if j < |Kept(page[..n], failed)| {
      i := KeptAt(page[..n], failed, j);
    } else {
      i := n;
    }
  }

  lemma {:induction false} KeptHas(page: seq<PeerSnap>, failed: set<nat>, i: nat)
    requires i < |page| && i !in failed
    ensures page[i] in Kept(page, failed)
  {
    var n := |page| - 1;
    if i < n {
      KeptHas(page[..n], failed, i);
      assert page[..n][i] == page[i];
    }
  }

  lemma {:induction false} KeptAscends(page: seq<PeerSnap>, failed: set<nat>)
    requires Ascending(page)
    ensures Ascending(Kept(page, failed))
  {
    if page != [] {
      var n := |page| - 1;
      KeptAscends(page[..n], failed);
      forall j | 0 <= j < |Kept(page[..n], failed)|
        ensures Kept(page[..n], failed)[j].ingestedAt <= page[n].ingestedAt
      {
        var i := KeptAt(page[..n], failed, j);
      }
    }
  }

  lemma {:induction false} NothingFailed(page: seq<PeerSnap>)
    ensures Kept(page, {}) == page
  {
    if page != [] {
      NothingFailed(page[..|page| - 1]);
    }
  }

  /** What a visit keeps is in ascending order and newer than the cursor. */
  lemma KeptIsNew(remote: seq<PeerSnap>, since: int, v: Visit)
    requires Ascending(remote)
    ensures Ascending(KeptIn(remote, since, v))
    ensures forall j :: 0 <= j < |KeptIn(remote, since, v)| ==> KeptIn(remote, since, v)[j].ingestedAt > since
  {
    var page := Page(Seen(remote, v), since);
    PageOf(Seen(remote, v), since);
    KeptAscends(page, v.failed);
    forall j | 0 <= j < |Kept(page, v.failed)|
      ensures Kept(page, v.failed)[j].ingestedAt > since
    {
      var i := KeptAt(page, v.failed, j);
    }
  }

  /** The rows ascend up to the horizon, which is 0 before anything was received. */
  predicate UpTo(all: seq<PeerSnap>, horizon: int) {
    Ascending(all) && horizon == if all == [] then 0 else all[|all| - 1].ingestedAt
  }

  lemma UpToJoin(all: seq<PeerSnap>, horizon: int, kept: seq<PeerSnap>)
    requires UpTo(all, horizon) && Ascending(kept)
    requires forall j :: 0 <= j < |kept| ==> kept[j].ingestedAt > horizon
    ensures UpTo(all + kept, if kept == [] then horizon else kept[|kept| - 1].ingestedAt)
  {
    assert all + [] == all;
    forall i, j | 0 <= i < j < |all + kept|
      ensures (all + kept)[i].ingestedAt <= (all + kept)[j].ingestedAt
    {
      assert i < |all| ==> all[i].ingestedAt <= all[|all| - 1].ingestedAt;
    }
  }

  /** The horizon belongs to the last row received, and no row received is newer. */
  lemma {:induction false} ReceivedUpToHorizon(remote: seq<PeerSnap>, visits: seq<Visit>)
    requires Ascending(remote)
    ensures UpTo(Received(remote, visits), Horizon(remote, visits))
  {
    if visits == [] {
      assert Received(remote, visits) == [];
    } else {
      var before, v := visits[..|visits| - 1], visits[|visits| - 1];
      ReceivedUpToHorizon(remote, before);
      KeptIsNew(remote, Horizon(remote, before), v);
      UpToJoin(Received(remote, before), Horizon(remote, before), KeptIn(remote, Horizon(remote, before), v));
    }
  }

  // ----- Passed rows -----

  /** Where the page of a visit begins and ends in `remote`. */
  function PageStart(remote: seq<PeerSnap>, since: int, v: Visit): nat {
    Min(FirstAfter(remote, since), Min(v.seen, |remote|))
  }

  function PageStop(remote: seq<PeerSnap>, since: int, v: Visit): nat {
    Min(PageStart(remote, since, v) + PAGE, Min(v.seen, |remote|))
  }

  lemma SliceOfPrefix(remote: seq<PeerSnap>, m: nat, a: nat, b: nat)
    requires a <= b <= m <= |remote|
    ensures remote[..m][a..b] == remote[a..b]
  {
  }

  lemma PageIs(remote: seq<PeerSnap>, since: int, v: Visit)
    ensures PageStart(remote, since, v) <= PageStop(remote, since, v) <= |remote|
    ensures Page(Seen(remote, v), since) == remote[PageStart(remote, since, v)..PageStop(remote, since, v)]
  {
    FirstAfterSplits(remote, since, 0);
    FirstAfterIs(Seen(remote, v), since, PageStart(remote, since, v));
    SliceOfPrefix(remote, Min(v.seen, |remote|), PageStart(remote, since, v), PageStop(remote, since, v));
  }

  /** The visit after `before` stores row `i`. */
  predicate Gets(remote: seq<PeerSnap>, before: seq<Visit>, v: Visit, i: nat) {
    var since := Horizon(remote, before);
    PageStart(remote, since, v) <= i < PageStop(remote, since, v) && i - PageStart(remote, since, v) !in v.failed
  }

  /** A kept row is one the visit gets. */
  lemma KeptIsGot(remote: seq<PeerSnap>, before: seq<Visit>, v: Visit, j: nat) returns (i: nat)
    requires j < |KeptIn(remote, Horizon(remote, before), v)|
    ensures i < |remote| && remote[i] == KeptIn(remote, Horizon(remote, before), v)[j] && Gets(remote, before, v, i)
  {
    var since := Horizon(remote, before);
    PageIs(remote, since, v);
    var k := KeptAt(Page(Seen(remote, v), since), v.failed, j);
    i := PageStart(remote, since, v) + k;
  }

  lemma GotIsKept(remote: seq<PeerSnap>, before: seq<Visit>, v: Visit, i: nat)
    requires i < |remote| && Gets(remote, before, v, i)
    ensures remote[i] in KeptIn(remote, Horizon(remote, before), v)
  {
    var since := Horizon(remote, before);
    PageIs(remote, since, v);
    KeptHas(Page(Seen(remote, v), since), v.failed, i - PageStart(remote, since, v));
  }

  lemma Last(visits: seq<Visit>, v: Visit)
    ensures (visits + [v])[..|visits|] == visits
  {
  }

  lemma HorizonNext(remote: seq<PeerSnap>, before: seq<Visit>, v: Visit)
    ensures var kept := KeptIn(remote, Horizon(remote, before), v);
            Horizon(remote, before + [v]) ==
            if kept == [] then Horizon(remote, before) else kept[|kept| - 1].ingestedAt
  {
    Last(before, v);
  }

  lemma GotIsWithinHorizon(remote: seq<PeerSnap>, before: seq<Visit>, v: Visit, i: nat)
    requires Ascending(remote) && i < |remote| && Gets(remote, before, v, i)
    ensures remote[i].ingestedAt <= Horizon(remote, before + [v])
  {
    var since := Horizon(remote, before);
    var kept := KeptIn(remote, since, v);
    GotIsKept(remote, before, v, i);
    KeptIsNew(remote, since, v);
    HorizonNext(remote, before, v);
    var j :| 0 <= j < |kept| && kept[j] == remote[i];
    assert j < |kept| - 1 ==> kept[j].ingestedAt <= kept[|kept| - 1].ingestedAt;
  }

  /** A visit passes the rows it gets, and they were not passed before. */
  lemma GetsBetween(remote: seq<PeerSnap>, before: seq<Visit>, v: Visit, i: nat)
    requires Ascending(remote) && i < |remote| && Gets(remote, before, v, i)
    ensures Passed(remote, before) <= i < Passed(remote, before + [v])
  {
    GotIsWithinHorizon(remote, before, v, i);
    FirstAfterSplits(remote, Horizon(remote, before + [v]), 0);
  }

  lemma PassedGrows(remote: seq<PeerSnap>, before: seq<Visit>, v: Visit)
    requires Ascending(remote)
    ensures Horizon(remote, before) <= Horizon(remote, before + [v])
    ensures Passed(remote, before) <= Passed(remote, before + [v])
  {
    var since := Horizon(remote, before);
    Last(before, v);
    KeptIsNew(remote, since, v);
    FirstAfterSplits(remote, since, 0);
    FirstAfterSplits(remote, Horizon(remote, before + [v]), 0);
  }

  lemma PassedNext(remote: seq<PeerSnap>, visits: seq<Visit>, r: nat)
    requires Ascending(remote) && r < |visits|
    ensures Passed(remote, visits[..r]) <= Passed(remote, visits[..r + 1])
  {
    assert visits[..r] + [visits[r]] == visits[..r + 1];
    PassedGrows(remote, visits[..r], visits[r]);
  }

  lemma {:induction false} PassedMonotone(remote: seq<PeerSnap>, visits: seq<Visit>, q: nat, r: nat)
    requires Ascending(remote) && q <= r <= |visits|
    ensures Passed(remote, visits[..q]) <= Passed(remote, visits[..r])
    decreases r - q
  {
    if q < r {
      PassedNext(remote, visits, q);
      PassedMonotone(remote, visits, q + 1, r);
    }
  }

  /** Visit number `r` of a series stores row `i`. */
  predicate GetsAt(remote: seq<PeerSnap>, visits: seq<Visit>, r: nat, i: nat)
    requires r < |visits|
  {
    Gets(remote, visits[..r], visits[r], i)
  }

  ghost predicate GotRow(remote: seq<PeerSnap>, visits: seq<Visit>, i: nat) {
    exists r :: 0 <= r < |visits| && GetsAt(remote, visits, r, i)
  }

  lemma PrefixGets(remote: seq<PeerSnap>, visits: seq<Visit>, n: nat, r: nat, i: nat)
    requires r < n <= |visits|
    ensures GetsAt(remote, visits[..n], r, i) <==> GetsAt(remote, visits, r, i)
  {
    assert visits[..n][..r] == visits[..r];
  }

  /** The visit that got a received row, and where the row stands at the peer. */
  lemma {:induction false} ReceivedAt(remote: seq<PeerSnap>, visits: seq<Visit>, j: nat) returns (r: nat, i: nat)
    requires j < |Received(remote, visits)|
    ensures r < |visits| && i < |remote| && remote[i] == Received(remote, visits)[j] && GetsAt(remote, visits, r, i)
  {
    var n := |visits| - 1;
    var before := Received(remote, visits[..n]);
    if j < |before| {
      r, i := ReceivedAt(remote, visits[..n], j);
      PrefixGets(remote, visits, n, r, i);
    } else {
      r := n;
      i := KeptIsGot(remote, visits[..n], visits[n], j - |before|);
    }
  }

  lemma {:induction false} GotIsReceived(remote: seq<PeerSnap>, visits: seq<Visit>, r: nat, i: nat)
    requires r < |visits| && i < |remote| && GetsAt(remote, visits, r, i)
    ensures remote[i] in Received(remote, visits)
  {
    var n := |visits| - 1;
    if r == n {
      GotIsKept(remote, visits[..n], visits[n], i);
    } else {
      PrefixGets(remote, visits, n, r, i);
      GotIsReceived(remote, visits[..n], r, i);
    }
  }

  /** Visit number `r` stores every row it passes. */
  ghost predicate Lossless(remote: seq<PeerSnap>, visits: seq<Visit>, r: nat)
    requires r < |visits|
  {
    forall i :: Passed(remote, visits[..r]) <= i < Passed(remote, visits[..r + 1]) ==> GetsAt(remote, visits, r, i)
  }

  /** A row is got only by the visit that passes it. */
  lemma OnlyPassingVisitGets(remote: seq<PeerSnap>, visits: seq<Visit>, r: nat, q: nat, i: nat)
    requires Ascending(remote) && r < |visits| && q < |visits| && i < |remote|
    requires Passed(remote, visits[..r]) <= i < Passed(remote, visits[..r + 1]) && GetsAt(remote, visits, q, i)
    ensures q == r
  {
    assert visits[..q] + [visits[q]] == visits[..q + 1];
    GetsBetween(remote, visits[..q], visits[q], i);
    if q < r {
      PassedMonotone(remote, visits, q + 1, r);
    } else if q > r {
      PassedMonotone(remote, visits, r + 1, q);
    }
  }

  /** A row that a visit passes without storing it is lost: no visit of the series ever gets it. */
  lemma PassedRowIsLost(remote: seq<PeerSnap>, visits: seq<Visit>, r: nat, i: nat)
    requires Ascending(remote) && r < |visits|
    requires Passed(remote, visits[..r]) <= i < Passed(remote, visits[..r + 1]) && !GetsAt(remote, visits, r, i)
    ensures !GotRow(remote, visits, i)
  {
    forall q | 0 <= q < |visits|
      ensures !GetsAt(remote, visits, q, i)
    {
      if GetsAt(remote, visits, q, i) {
        OnlyPassingVisitGets(remote, visits, r, q, i);
      }
    }
  }

  lemma {:induction false} PassingVisit(remote: seq<PeerSnap>, visits: seq<Visit>, n: nat, i: nat) returns (r: nat)
    requires n <= |visits| && Passed(remote, []) <= i < Passed(remote, visits[..n])
    ensures r < n && Passed(remote, visits[..r]) <= i < Passed(remote, visits[..r + 1])
  {
    assert visits[..0] == [];
    if Passed(remote, visits[..n - 1]) <= i {
      r := n - 1;
    } else {
      r := PassingVisit(remote, visits, n - 1, i);
    }
  }

  lemma {:induction false} KeptPrefix(page: seq<PeerSnap>, failed: set<nat>, m: nat)
    requires m <= |page| && forall i :: 0 <= i < |page| ==> (i in failed <==> i >= m)
    ensures Kept(page, failed) == page[..m]
  {
    if page != [] {
      var n := |page| - 1;
      if m <= n {
        KeptPrefix(page[..n], failed, m);
      } else {
        KeptPrefix(page[..n], failed, n);
      }
    }
  }

  /** On the page of a lossless visit the inserts that fail are those of rows it does not pass. */
  lemma PagePosition(remote: seq<PeerSnap>, visits: seq<Visit>, r: nat, k: nat)
    requires Ascending(remote) && r < |visits| && Lossless(remote, visits, r)
    requires k < |Page(Seen(remote, visits[r]), Horizon(remote, visits[..r]))|
    ensures var start := PageStart(remote, Horizon(remote, visits[..r]), visits[r]);
            && start >= Passed(remote, visits[..r])
            && (k in visits[r].failed <==> start + k >= Passed(remote, visits[..r + 1]))
  {
    var before, v := visits[..r], visits[r];
    var since := Horizon(remote, before);
    assert before + [v] == visits[..r + 1];
    PageIs(remote, since, v);
    var i := PageStart(remote, since, v) + k;
    assert Passed(remote, before) <= i < Passed(remote, visits[..r + 1]) ==> GetsAt(remote, visits, r, i);
    if k !in v.failed {
      GetsBetween(remote, before, v, i);
    }
  }

  lemma KeptSlice(remote: seq<PeerSnap>, start: nat, stop: nat, failed: set<nat>, from: nat, to: nat)
    requires start <= stop <= |remote| && from <= to <= |remote|
    requires from < to ==> start == from && to <= stop
    requires forall k :: 0 <= k < stop - start ==> start >= from && (k in failed <==> start + k >= to)
    ensures Kept(remote[start..stop], failed) == remote[from..to]
  {
    KeptPrefix(remote[start..stop], failed, to - from);
  }

  /** A lossless visit keeps exactly the rows it passes, in order. */
  lemma LosslessKeeps(remote: seq<PeerSnap>, visits: seq<Visit>, r: nat)
    requires Ascending(remote) && r < |visits| && Lossless(remote, visits, r)
    ensures Passed(remote, visits[..r]) <= Passed(remote, visits[..r + 1])
    ensures KeptIn(remote, Horizon(remote, visits[..r]), visits[r]) ==
            remote[Passed(remote, visits[..r])..Passed(remote, visits[..r + 1])]
  {
    var since, from, to := Horizon(remote, visits[..r]), Passed(remote, visits[..r]), Passed(remote, visits[..r + 1]);
    var start, stop := PageStart(remote, since, visits[r]), PageStop(remote, since, visits[r]);
    PassedMonotone(remote, visits, r, r + 1);
    PageIs(remote, since, visits[r]);
    forall k | 0 <= k < stop - start
      ensures start >= from && (k in visits[r].failed <==> start + k >= to)
    {
      PagePosition(remote, visits, r, k);
    }
    if from < to {
      assert GetsAt(remote, visits, r, from) && GetsAt(remote, visits, r, to - 1);
    }
    KeptSlice(remote, start, stop, visits[r].failed, from, to);
  }

  lemma ReceivedNext(remote: seq<PeerSnap>, visits: seq<Visit>, r: nat)
    requires r < |visits|
    ensures Received(remote, visits[..r + 1]) ==
            Received(remote, visits[..r]) + KeptIn(remote, Horizon(remote, visits[..r]), visits[r])
  {
    assert visits[..r + 1][..r] == visits[..r];
  }

  lemma SlicesJoin(remote: seq<PeerSnap>, a: nat, b: nat)
    requires a <= b <= |remote|
    ensures remote[..a] + remote[a..b] == remote[..b]
  {
  }

  lemma LosslessNext(remote: seq<PeerSnap>, visits: seq<Visit>, r: nat)
    requires Ascending(remote) && r < |visits| && Lossless(remote, visits, r)
    requires Received(remote, visits[..r]) == remote[..Passed(remote, visits[..r])]
    ensures Received(remote, visits[..r + 1]) == remote[..Passed(remote, visits[..r + 1])]
  {
    LosslessKeeps(remote, visits, r);
    ReceivedNext(remote, visits, r);
    SlicesJoin(remote, Passed(remote, visits[..r]), Passed(remote, visits[..r + 1]));
  }

  /** Lossless visits receive the peer's rows in order, without a gap. */
  lemma {:induction false} LosslessReceives(remote: seq<PeerSnap>, visits: seq<Visit>, r: nat)
    requires Ascending(remote) && (remote != [] ==> remote[0].ingestedAt > 0)
    requires AllLossless(remote, visits) && r <= |visits|
    ensures Received(remote, visits[..r]) == remote[..Passed(remote, visits[..r])]
  {
    if r == 0 {
      FirstAfterIs(remote, 0, 0);
      assert visits[..0] == [] && Received(remote, []) == [];
    } else {
      LosslessReceives(remote, visits, r - 1);
      assert Lossless(remote, visits, r - 1);
      LosslessNext(remote, visits, r - 1);
    }
  }

  ghost predicate AllLossless(remote: seq<PeerSnap>, visits: seq<Visit>) {
    forall r :: 0 <= r < |visits| ==> Lossless(remote, visits, r)
  }

  lemma AllLosslessReceive(remote: seq<PeerSnap>, visits: seq<Visit>)
    requires Ascending(remote) && (remote != [] ==> remote[0].ingestedAt > 0) && AllLossless(remote, visits)
    ensures Received(remote, visits) == remote[..Passed(remote, visits)]
  {
    LosslessReceives(remote, visits, |visits|);
    assert visits[..|visits|] == visits;
  }

  /** Every row is received if and only if every row is passed and no visit passes a row without storing it. */
  lemma AllGotIff(remote: seq<PeerSnap>, visits: seq<Visit>)
    requires Ascending(remote) && (remote != [] ==> remote[0].ingestedAt > 0)
    ensures (forall i :: 0 <= i < |remote| ==> GotRow(remote, visits, i)) <==>
            AllLossless(remote, visits) && Passed(remote, visits) == |remote|
  {
    assert visits[..|visits|] == visits;
    if AllLossless(remote, visits) && Passed(remote, visits) == |remote| {
      forall i | 0 <= i < |remote|
        ensures GotRow(remote, visits, i)
      {
        FirstAfterIs(remote, 0, 0);
        var r := PassingVisit(remote, visits, |visits|, i);
        assert Lossless(remote, visits, r) && GetsAt(remote, visits, r, i);
      }
    }
    if forall i :: 0 <= i < |remote| ==> GotRow(remote, visits, i) {
      AllGotArePassed(remote, visits);
      forall r | 0 <= r < |visits|
        ensures Lossless(remote, visits, r)
      {
        AllGotIsLossless(remote, visits, r);
      }
    }
  }

  lemma AllGotIsLossless(remote: seq<PeerSnap>, visits: seq<Visit>, r: nat)
    requires Ascending(remote) && r < |visits| && forall i :: 0 <= i < |remote| ==> GotRow(remote, visits, i)
    ensures Lossless(remote, visits, r)
  {
    forall i | Passed(remote, visits[..r]) <= i < Passed(remote, visits[..r + 1])
      ensures GetsAt(remote, visits, r, i)
    {
      assert GotRow(remote, visits, i);
      var q :| 0 <= q < |visits| && GetsAt(remote, visits, q, i);
      OnlyPassingVisitGets(remote, visits, r, q, i);
    }
  }

  lemma AllGotArePassed(remote: seq<PeerSnap>, visits: seq<Visit>)
    requires Ascending(remote) && forall i :: 0 <= i < |remote| ==> GotRow(remote, visits, i)
    ensures Passed(remote, visits) == |remote|
  {
    var k := Passed(remote, visits);
    if k < |remote| {
      assert GotRow(remote, visits, k);
      var q :| 0 <= q < |visits| && GetsAt(remote, visits, q, k);
      assert visits[..q] + [visits[q]] == visits[..q + 1] && visits[..|visits|] == visits;
      GetsBetween(remote, visits[..q], visits[q], k);
      PassedMonotone(remote, visits, q + 1, |visits|);
    }
  }

  // ----- Page boundaries -----

  /** Position `k` does not fall inside a second. */
  predicate CleanAt(remote: seq<PeerSnap>, k: nat) {
    0 < k < |remote| ==> remote[k - 1].ingestedAt < remote[k].ingestedAt
  }

  /** A visit that loses no insert keeps its page. */
  lemma KeepsPage(remote: seq<PeerSnap>, since: int, v: Visit)
    requires v.failed == {}
    ensures PageStart(remote, since, v) <= PageStop(remote, since, v) <= |remote|
    ensures KeptIn(remote, since, v) == remote[PageStart(remote, since, v)..PageStop(remote, since, v)]
  {
    PageIs(remote, since, v);
    NothingFailed(Page(Seen(remote, v), since));
  }

  /** Where a visit that loses no insert moves the cursor. */
  lemma VisitPasses(remote: seq<PeerSnap>, before: seq<Visit>, v: Visit)
    requires Ascending(remote) && v.failed == {}
    ensures var since := Horizon(remote, before);
            var start, stop := PageStart(remote, since, v), PageStop(remote, since, v);
            && start <= stop <= |remote|
            && (start < stop ==>
                  && start == Passed(remote, before)
                  && stop <= Passed(remote, before + [v])
                  && (Passed(remote, before + [v]) == stop <==> CleanAt(remote, stop)))
            && (start == stop ==> Passed(remote, before + [v]) == Passed(remote, before))
  {
    var since := Horizon(remote, before);
    KeepsPage(remote, since, v);
    HorizonNext(remote, before, v);
    if PageStart(remote, since, v) < PageStop(remote, since, v) {
      PassedEnd(remote, PageStop(remote, since, v));
    }
  }

  /** Which rows are passed with the row before position `stop`. */
  lemma PassedEnd(remote: seq<PeerSnap>, stop: nat)
    requires Ascending(remote) && 0 < stop <= |remote|
    ensures FirstAfter(remote, remote[stop - 1].ingestedAt) >= stop
    ensures FirstAfter(remote, remote[stop - 1].ingestedAt) == stop <==> CleanAt(remote, stop)
  {
    FirstAfterSplits(remote, remote[stop - 1].ingestedAt, 0);
  }

  /** A visit whose inserts all succeed is lossless if and only if its page does not end inside a second. */
  lemma LosslessIffCleanEnd(remote: seq<PeerSnap>, visits: seq<Visit>, r: nat)
    requires Ascending(remote) && r < |visits| && visits[r].failed == {}
    ensures var since := Horizon(remote, visits[..r]);
            Lossless(remote, visits, r) <==>
            (PageStart(remote, since, visits[r]) < PageStop(remote, since, visits[r]) ==>
             CleanAt(remote, PageStop(remote, since, visits[r])))
  {
    assert visits[..r] + [visits[r]] == visits[..r + 1];
    VisitPasses(remote, visits[..r], visits[r]);
    var stop := PageStop(remote, Horizon(remote, visits[..r]), visits[r]);
    assert !GetsAt(remote, visits, r, stop);
  }

  function Cut(k: nat): nat {
    100 * k
  }

  /** A visit that sees everything and loses no insert. */
  predicate Full(remote: seq<PeerSnap>, v: Visit) {
    v.seen >= |remote| && v.failed == {}
  }

  /** A full visit passes a hundred more rows, or all of them. */
  lemma FullVisitPasses(remote: seq<PeerSnap>, before: seq<Visit>, v: Visit)
    requires Ascending(remote) && Full(remote, v)
    ensures Passed(remote, before + [v]) >= Min(Passed(remote, before) + PAGE, |remote|)
    ensures PageStart(remote, Horizon(remote, before), v) == Passed(remote, before)
    ensures PageStop(remote, Horizon(remote, before), v) == Min(Passed(remote, before) + PAGE, |remote|)
  {
    VisitPasses(remote, before, v);
  }

  /** One full visit per hundred rows, at any point of a series, leaves no row newer than the cursor. */
  lemma {:induction false} CatchesUp(remote: seq<PeerSnap>, visits: seq<Visit>, from: nat, r: nat)
    requires Ascending(remote) && from <= r <= |visits|
    requires forall q :: from <= q < r ==> Full(remote, visits[q])
    ensures Passed(remote, visits[..r]) >= Min(Cut(r - from), |remote|)
  {
    if from < r {
      CatchesUp(remote, visits, from, r - 1);
      assert visits[..r - 1] + [visits[r - 1]] == visits[..r];
      FullVisitPasses(remote, visits[..r - 1], visits[r - 1]);
    }
  }

  ghost predicate CleanCuts(remote: seq<PeerSnap>) {
    forall k: nat :: CleanAt(remote, Cut(k))
  }

  predicate AllFull(remote: seq<PeerSnap>, visits: seq<Visit>) {
    forall q :: 0 <= q < |visits| ==> Full(remote, visits[q])
  }

  /** Full visits without losses pass a hundred rows each. */
  lemma {:induction false} LosslessStarts(remote: seq<PeerSnap>, visits: seq<Visit>, r: nat)
    requires Ascending(remote) && (remote != [] ==> remote[0].ingestedAt > 0)
    requires AllFull(remote, visits) && r <= |visits| && forall q :: 0 <= q < r ==> Lossless(remote, visits, q)
    ensures Passed(remote, visits[..r]) == Min(Cut(r), |remote|)
  {
    if r == 0 {
      FirstAfterIs(remote, 0, 0);
    } else {
      LosslessStarts(remote, visits, r - 1);
      assert visits[..r - 1] + [visits[r - 1]] == visits[..r];
      FullVisitPasses(remote, visits[..r - 1], visits[r - 1]);
      LosslessIffCleanEnd(remote, visits, r - 1);
      VisitPasses(remote, visits[..r - 1], visits[r - 1]);
    }
  }

  /** Among full visits, the one that begins at a cut is lossless if and only if the next cut is clean. */
  lemma LosslessIffNextCut(remote: seq<PeerSnap>, visits: seq<Visit>, r: nat)
    requires Ascending(remote) && AllFull(remote, visits) && r < |visits|
    requires Passed(remote, visits[..r]) == Min(Cut(r), |remote|)
    ensures Lossless(remote, visits, r) <==> CleanAt(remote, Cut(r + 1))
  {
    FullVisitPasses(remote, visits[..r], visits[r]);
    LosslessIffCleanEnd(remote, visits, r);
  }

  lemma {:induction false} CleanCutsAreLossless(remote: seq<PeerSnap>, visits: seq<Visit>, r: nat)
    requires Ascending(remote) && (remote != [] ==> remote[0].ingestedAt > 0)
    requires AllFull(remote, visits) && CleanCuts(remote) && r < |visits|
    ensures forall q :: 0 <= q <= r ==> Lossless(remote, visits, q)
  {
    if r > 0 {
      CleanCutsAreLossless(remote, visits, r - 1);
    }
    LosslessStarts(remote, visits, r);
    LosslessIffNextCut(remote, visits, r);
    assert CleanAt(remote, Cut(r + 1));
  }

  /** Enough full visits lose nothing if and only if no multiple of a hundred falls inside a second. */
  lemma LosslessIffCleanCuts(remote: seq<PeerSnap>, visits: seq<Visit>)
    requires Ascending(remote) && (remote != [] ==> remote[0].ingestedAt > 0)
    requires AllFull(remote, visits) && Cut(|visits|) >= |remote|
    ensures AllLossless(remote, visits) <==> CleanCuts(remote)
  {
    if CleanCuts(remote) && visits != [] {
      CleanCutsAreLossless(remote, visits, |visits| - 1);
    }
    if AllLossless(remote, visits) {
      forall k: nat
        ensures CleanAt(remote, Cut(k))
      {
        if 0 < Cut(k) < |remote| {
          LosslessStarts(remote, visits, k - 1);
          LosslessIffNextCut(remote, visits, k - 1);
        }
      }
    }
  }

  // ----- The local table follows the rows received -----

  /** One more than the position of the last row for the candidate, 0 if there is none. */
  function LastFor(snaps: seq<PeerSnap>, candidate: string): (k: nat)
    ensures k <= |snaps|
    ensures k > 0 ==> snaps[k - 1].candidate == candidate
  {
    if snaps == [] then 0
    else if snaps[|snaps| - 1].candidate == candidate then |snaps|
    else LastFor(snaps[..|snaps| - 1], candidate)
  }

  /** The peer's rows in the table are the last ones received for each candidate. */
  ghost predicate Mirrors(rows: map<string, FedRow>, peer: string, endpoint: string, received: seq<PeerSnap>) {
    forall c :: MirrorsAt(rows, peer, endpoint, received, c)
  }

  predicate MirrorsAt(rows: map<string, FedRow>, peer: string, endpoint: string, received: seq<PeerSnap>, c: string) {
    && (LastFor(received, c) > 0 ==> c in rows && rows[c] == RowFor(peer, endpoint, received[LastFor(received, c) - 1]))
    && (LastFor(received, c) == 0 ==> c in rows ==> rows[c].peer != peer)
  }

  lemma {:induction false} LastForAppend(a: seq<PeerSnap>, b: seq<PeerSnap>, c: string)
    ensures LastFor(a + b, c) == if LastFor(b, c) > 0 then |a| + LastFor(b, c) else LastFor(a, c)
  {
    if b == [] {
      assert a + b == a;
    } else {
      LastForAppend(a, b[..|b| - 1], c);
      assert (a + b)[..|a + b| - 1] == a + b[..|b| - 1];
    }
  }

  lemma {:induction false} StoredRow(rows: map<string, FedRow>, peer: string, endpoint: string, kept: seq<PeerSnap>,
                                     c: string)
    ensures var rows' := Stored(rows, peer, endpoint, kept);
            if LastFor(kept, c) > 0 then c in rows' && rows'[c] == RowFor(peer, endpoint, kept[LastFor(kept, c) - 1])
            else (c in rows' <==> c in rows) && (c in rows ==> rows'[c] == rows[c])
  {
    if kept != [] {
      StoredRow(rows, peer, endpoint, kept[..|kept| - 1], c);
    }
  }

  lemma StoringMirrors(rows: map<string, FedRow>, peer: string, endpoint: string, received: seq<PeerSnap>,
                       kept: seq<PeerSnap>)
    requires Mirrors(rows, peer, endpoint, received)
    ensures Mirrors(Stored(rows, peer, endpoint, kept), peer, endpoint, received + kept)
  {
    forall c
      ensures MirrorsAt(Stored(rows, peer, endpoint, kept), peer, endpoint, received + kept, c)
    {
      assert MirrorsAt(rows, peer, endpoint, received, c);
      StoredRow(rows, peer, endpoint, kept, c);
      LastForAppend(received, kept, c);
    }
  }

  lemma NothingReceived(rows: map<string, FedRow>, peer: string, endpoint: string)
    requires Mirrors(rows, peer, endpoint, [])
    ensures forall c :: c in rows ==> rows[c].peer != peer
  {
    forall c | c in rows
      ensures rows[c].peer != peer
    {
      assert MirrorsAt(rows, peer, endpoint, [], c);
    }
  }

  /** The newest row stored for the peer is the last one received. */
  lemma NewestIsLast(rows: map<string, FedRow>, peer: string, endpoint: string, received: seq<PeerSnap>)
    requires Ascending(received) && received != [] && Mirrors(rows, peer, endpoint, received)
    ensures var newest := received[|received| - 1].ingestedAt;
            && (forall c :: c in rows && rows[c].peer == peer ==> rows[c].ingestedAt <= newest)
            && (exists c :: c in rows && rows[c].peer == peer && rows[c].ingestedAt == newest)
  {
    var last := received[|received| - 1];
    assert MirrorsAt(rows, peer, endpoint, received, last.candidate);
    assert rows[last.candidate].ingestedAt == last.ingestedAt;
    forall c | c in rows && rows[c].peer == peer
      ensures rows[c].ingestedAt <= last.ingestedAt
    {
      assert MirrorsAt(rows, peer, endpoint, received, c);
    }
  }

  /** The cursor read from the table is the horizon. */
  lemma CursorIsHorizon(rows: map<string, FedRow>, peer: string, endpoint: string, remote: seq<PeerSnap>,
                        visits: seq<Visit>, cursor: int)
    requires Ascending(remote) && Mirrors(rows, peer, endpoint, Received(remote, visits))
    requires IsCursor(rows, peer, cursor)
    ensures cursor == Horizon(remote, visits)
  {
    ReceivedUpToHorizon(remote, visits);
    if Received(remote, visits) == [] {
      NothingReceived(rows, peer, endpoint);
    } else {
      NewestIsLast(rows, peer, endpoint, Received(remote, visits));
    }
  }

  // ----- Runs: rounds with one peer, among rounds with others -----

  // `Theirs` is whatever happens between this peer's rounds.
  datatype Round = Ours(since: int, visit: Visit) | Theirs(rows: map<string, FedRow>)

  /** Other peers supply none of this peer's candidates. */
  ghost predicate LeavesAlone(rows: map<string, FedRow>, rows': map<string, FedRow>, peer: string,
                              remote: seq<PeerSnap>)
  {
    && (forall c :: LastFor(remote, c) > 0 ==> (c in rows' <==> c in rows) && (c in rows ==> rows'[c] == rows[c]))
    && (forall c :: c in rows' && rows'[c].peer == peer ==> c in rows && rows[c] == rows'[c])
  }

  ghost predicate IsRound(rows: map<string, FedRow>, rows': map<string, FedRow>, round: Round, peer: string,
                          endpoint: string, remote: seq<PeerSnap>)
  {
    match round
    case Ours(since, v) =>
      IsCursor(rows, peer, since) && rows' == Stored(rows, peer, endpoint, KeptIn(remote, since, v))
    case Theirs(other) => LeavesAlone(rows, other, peer, remote) && rows' == other
  }

  /** A run of rounds, during which the peer's table grows up to `remote`. */
  ghost predicate IsRun(ts: seq<map<string, FedRow>>, rounds: seq<Round>, peer: string, endpoint: string,
                        remote: seq<PeerSnap>)
  {
    && |ts| == |rounds| + 1
    && forall i :: 0 <= i < |rounds| ==> RoundAt(ts, rounds, peer, endpoint, remote, i)
  }

  ghost predicate RoundAt(ts: seq<map<string, FedRow>>, rounds: seq<Round>, peer: string, endpoint: string,
                          remote: seq<PeerSnap>, i: int)
    requires 0 <= i < |rounds| < |ts|
  {
    IsRound(ts[i], ts[i + 1], rounds[i], peer, endpoint, remote)
  }

  /** The visits to the peer among the first `n` rounds. */
  function Visits(rounds: seq<Round>, n: nat): seq<Visit>
    requires n <= |rounds|
  {
    if n == 0 then [] else Visits(rounds, n - 1) + if rounds[n - 1].Ours? then [rounds[n - 1].visit] else []
  }

  /** Nothing of the peer's, and none of its candidates, is stored yet. */
  ghost predicate Untouched(rows: map<string, FedRow>, peer: string, remote: seq<PeerSnap>) {
    forall c :: c in rows ==> rows[c].peer != peer && LastFor(remote, c) == 0
  }

  lemma {:induction false} LastForIsLast(snaps: seq<PeerSnap>, c: string, i: nat)
    requires i < |snaps| && snaps[i].candidate == c
    ensures LastFor(snaps, c) > i
  {
    if snaps[|snaps| - 1].candidate != c {
      LastForIsLast(snaps[..|snaps| - 1], c, i);
    }
  }

  lemma LastForReceived(remote: seq<PeerSnap>, visits: seq<Visit>, c: string)
    requires LastFor(Received(remote, visits), c) > 0
    ensures LastFor(remote, c) > 0
  {
    var _, i := ReceivedAt(remote, visits, LastFor(Received(remote, visits), c) - 1);
    LastForIsLast(remote, c, i);
  }

  lemma OthersKeepMirror(rows: map<string, FedRow>, rows': map<string, FedRow>, peer: string, endpoint: string,
                         remote: seq<PeerSnap>, visits: seq<Visit>)
    requires LeavesAlone(rows, rows', peer, remote) && Mirrors(rows, peer, endpoint, Received(remote, visits))
    ensures Mirrors(rows', peer, endpoint, Received(remote, visits))
  {
    forall c
      ensures MirrorsAt(rows', peer, endpoint, Received(remote, visits), c)
    {
      assert MirrorsAt(rows, peer, endpoint, Received(remote, visits), c);
      if LastFor(Received(remote, visits), c) > 0 {
        LastForReceived(remote, visits, c);
      }
    }
  }

  lemma VisitKeepsMirror(rows: map<string, FedRow>, peer: string, endpoint: string, remote: seq<PeerSnap>,
                         visits: seq<Visit>, since: int, v: Visit)
    requires Ascending(remote) && Mirrors(rows, peer, endpoint, Received(remote, visits)) && IsCursor(rows, peer, since)
    ensures Mirrors(Stored(rows, peer, endpoint, KeptIn(remote, since, v)), peer, endpoint,
                    Received(remote, visits + [v]))
  {
    CursorIsHorizon(rows, peer, endpoint, remote, visits, since);
    StoringMirrors(rows, peer, endpoint, Received(remote, visits), KeptIn(remote, since, v));
    Last(visits, v);
  }

  lemma RoundKeepsMirror(ts: seq<map<string, FedRow>>, rounds: seq<Round>, peer: string, endpoint: string,
                         remote: seq<PeerSnap>, n: nat)
    requires IsRun(ts, rounds, peer, endpoint, remote) && n < |rounds| && Ascending(remote)
    requires Mirrors(ts[n], peer, endpoint, Received(remote, Visits(rounds, n)))
    ensures Mirrors(ts[n + 1], peer, endpoint, Received(remote, Visits(rounds, n + 1)))
  {
    assert RoundAt(ts, rounds, peer, endpoint, remote, n);
    match rounds[n]
    case Ours(since, v) => VisitKeepsMirror(ts[n], peer, endpoint, remote, Visits(rounds, n), since, v);
    case Theirs(_) =>
      OthersKeepMirror(ts[n], ts[n + 1], peer, endpoint, remote, Visits(rounds, n));
      assert Visits(rounds, n + 1) == Visits(rounds, n);
  }

  lemma UntouchedMirrors(rows: map<string, FedRow>, peer: string, endpoint: string, remote: seq<PeerSnap>)
    requires Untouched(rows, peer, remote)
    ensures Mirrors(rows, peer, endpoint, Received(remote, []))
  {
  }

  /** After any run the peer's rows mirror what its rounds received. */
  lemma {:induction false} TableMirrorsReceived(ts: seq<map<string, FedRow>>, rounds: seq<Round>, peer: string,
                                                endpoint: string, remote: seq<PeerSnap>, n: nat)
    requires IsRun(ts, rounds, peer, endpoint, remote) && Untouched(ts[0], peer, remote) && n <= |rounds|
    requires Ascending(remote)
    ensures Mirrors(ts[n], peer, endpoint, Received(remote, Visits(rounds, n)))
  {
    if n == 0 {
      UntouchedMirrors(ts[0], peer, endpoint, remote);
    } else {
      TableMirrorsReceived(ts, rounds, peer, endpoint, remote, n - 1);
      RoundKeepsMirror(ts, rounds, peer, endpoint, remote, n - 1);
    }
  }

  /** At every point of a run the cursor is the horizon of the visits made so far. */
  lemma CursorInRun(ts: seq<map<string, FedRow>>, rounds: seq<Round>, peer: string, endpoint: string,
                    remote: seq<PeerSnap>, n: nat, cursor: int)
    requires IsRun(ts, rounds, peer, endpoint, remote) && Untouched(ts[0], peer, remote) && n <= |rounds|
    requires Ascending(remote) && IsCursor(ts[n], peer, cursor)
    ensures cursor == Horizon(remote, Visits(rounds, n))
  {
    TableMirrorsReceived(ts, rounds, peer, endpoint, remote, n);
    CursorIsHorizon(ts[n], peer, endpoint, remote, Visits(rounds, n), cursor);
  }

  /** In every run a round moves the cursor strictly forward if it stores anything, and never back. */
  lemma CursorAdvances(ts: seq<map<string, FedRow>>, rounds: seq<Round>, peer: string, endpoint: string,
                       remote: seq<PeerSnap>, n: nat, next: int)
    requires IsRun(ts, rounds, peer, endpoint, remote) && Untouched(ts[0], peer, remote) && n < |rounds|
    requires Ascending(remote) && rounds[n].Ours? && IsCursor(ts[n + 1], peer, next)
    ensures next >= rounds[n].since
    ensures next > rounds[n].since <==> KeptIn(remote, rounds[n].since, rounds[n].visit) != []
  {
    assert RoundAt(ts, rounds, peer, endpoint, remote, n);
    CursorInRun(ts, rounds, peer, endpoint, remote, n, rounds[n].since);
    CursorInRun(ts, rounds, peer, endpoint, remote, n + 1, next);
    KeptIsNew(remote, rounds[n].since, rounds[n].visit);
    Last(Visits(rounds, n), rounds[n].visit);
  }

  predicate DistinctCandidates(remote: seq<PeerSnap>) {
    forall i, j :: 0 <= i < j < |remote| ==> remote[i].candidate != remote[j].candidate
  }

  /** Every row of the peer is there with its own contents. */
  ghost predicate Complete(rows: map<string, FedRow>, peer: string, endpoint: string, remote: seq<PeerSnap>) {
    forall i :: 0 <= i < |remote| ==> HasRow(rows, peer, endpoint, remote[i])
  }

  predicate HasRow(rows: map<string, FedRow>, peer: string, endpoint: string, s: PeerSnap) {
    s.candidate in rows && rows[s.candidate] == RowFor(peer, endpoint, s)
  }

  lemma ReceivedRowIsLast(remote: seq<PeerSnap>, visits: seq<Visit>, i: nat)
    requires DistinctCandidates(remote) && i < |remote| && LastFor(Received(remote, visits), remote[i].candidate) > 0
    ensures Received(remote, visits)[LastFor(Received(remote, visits), remote[i].candidate) - 1] == remote[i]
    ensures GotRow(remote, visits, i)
  {
    var r, k := ReceivedAt(remote, visits, LastFor(Received(remote, visits), remote[i].candidate) - 1);
    assert k == i;
  }

  lemma GotRowIsListed(remote: seq<PeerSnap>, visits: seq<Visit>, i: nat)
    requires i < |remote| && GotRow(remote, visits, i)
    ensures LastFor(Received(remote, visits), remote[i].candidate) > 0
  {
    var r :| 0 <= r < |visits| && GetsAt(remote, visits, r, i);
    GotIsReceived(remote, visits, r, i);
    var j :| 0 <= j < |Received(remote, visits)| && Received(remote, visits)[j] == remote[i];
    LastForIsLast(Received(remote, visits), remote[i].candidate, j);
  }

  lemma GotIffListed(remote: seq<PeerSnap>, visits: seq<Visit>, i: nat)
    requires DistinctCandidates(remote) && i < |remote|
    ensures var received := Received(remote, visits);
            var last := LastFor(received, remote[i].candidate);
            (GotRow(remote, visits, i) <==> last > 0) && (last > 0 ==> received[last - 1] == remote[i])
  {
    if GotRow(remote, visits, i) {
      GotRowIsListed(remote, visits, i);
    }
    if LastFor(Received(remote, visits), remote[i].candidate) > 0 {
      ReceivedRowIsLast(remote, visits, i);
    }
  }

  lemma HasRowIffListed(rows: map<string, FedRow>, peer: string, endpoint: string, received: seq<PeerSnap>,
                        s: PeerSnap)
    requires MirrorsAt(rows, peer, endpoint, received, s.candidate)
    requires var last := LastFor(received, s.candidate); last > 0 ==> received[last - 1] == s
    ensures HasRow(rows, peer, endpoint, s) <==> LastFor(received, s.candidate) > 0
  {
  }

  /** While no round has passed a row without storing it, the table holds, for each candidate, the latest of
      the peer's rows up to the cursor, also when candidates repeat. */
  lemma LosslessSyncMirrorsPeer(ts: seq<map<string, FedRow>>, rounds: seq<Round>, peer: string, endpoint: string,
                                remote: seq<PeerSnap>, n: nat)
    requires IsRun(ts, rounds, peer, endpoint, remote) && Untouched(ts[0], peer, remote) && n <= |rounds|
    requires Ascending(remote) && (remote != [] ==> remote[0].ingestedAt > 0)
    requires AllLossless(remote, Visits(rounds, n))
    ensures Mirrors(ts[n], peer, endpoint, remote[..Passed(remote, Visits(rounds, n))])
  {
    TableMirrorsReceived(ts, rounds, peer, endpoint, remote, n);
    AllLosslessReceive(remote, Visits(rounds, n));
  }

  /** What a run with a growing peer amounts to: the local table has every row of the peer if and only if no
      row is newer than the cursor and every round stored all the rows it passed. */
  lemma SyncIsCompleteIff(ts: seq<map<string, FedRow>>, rounds: seq<Round>, peer: string, endpoint: string,
                          remote: seq<PeerSnap>, n: nat)
    requires IsRun(ts, rounds, peer, endpoint, remote) && Untouched(ts[0], peer, remote) && n <= |rounds|
    requires Ascending(remote) && (remote != [] ==> remote[0].ingestedAt > 0) && DistinctCandidates(remote)
    ensures Complete(ts[n], peer, endpoint, remote) <==>
            AllLossless(remote, Visits(rounds, n)) && Passed(remote, Visits(rounds, n)) == |remote|
  {
    var visits := Visits(rounds, n);
    TableMirrorsReceived(ts, rounds, peer, endpoint, remote, n);
    forall i | 0 <= i < |remote|
      ensures HasRow(ts[n], peer, endpoint, remote[i]) <==> GotRow(remote, visits, i)
    {
      GotIffListed(remote, visits, i);
      assert MirrorsAt(ts[n], peer, endpoint, Received(remote, visits), remote[i].candidate);
      HasRowIffListed(ts[n], peer, endpoint, Received(remote, visits), remote[i]);
    }
    AllGotIff(remote, visits);
  }

  /** Once the peer has stopped growing, one round per hundred rows catches up, and if no insert failed at
      any time, the table is complete if and only if no page of the run ended inside a second. */
  lemma GrowingSyncIsCompleteIff(ts: seq<map<string, FedRow>>, rounds: seq<Round>, peer: string, endpoint: string,
                                 remote: seq<PeerSnap>, n: nat, from: nat)
    requires IsRun(ts, rounds, peer, endpoint, remote) && Untouched(ts[0], peer, remote) && n <= |rounds|
    requires Ascending(remote) && (remote != [] ==> remote[0].ingestedAt > 0) && DistinctCandidates(remote)
    requires var visits := Visits(rounds, n);
             && (forall r :: 0 <= r < |visits| ==> visits[r].failed == {})
             && from <= |visits| && (forall r :: from <= r < |visits| ==> Full(remote, visits[r]))
             && Cut(|visits| - from) >= |remote|
    ensures var visits := Visits(rounds, n);
            Complete(ts[n], peer, endpoint, remote) <==>
            forall r :: 0 <= r < |visits| ==> EndsClean(remote, visits, r)
  {
    var visits := Visits(rounds, n);
    SyncIsCompleteIff(ts, rounds, peer, endpoint, remote, n);
    CatchesUp(remote, visits, from, |visits|);
    assert visits[..|visits|] == visits;
    forall r | 0 <= r < |visits|
      ensures Lossless(remote, visits, r) <==> EndsClean(remote, visits, r)
    {
      LosslessIffCleanEnd(remote, visits, r);
    }
  }

  /** The page of visit `r`, unless it is empty, ends between two seconds of the peer's final table. */
  predicate EndsClean(remote: seq<PeerSnap>, visits: seq<Visit>, r: nat)
    requires r < |visits|
  {
    var since := Horizon(remote, visits[..r]);
    PageStart(remote, since, visits[r]) < PageStop(remote, since, visits[r]) ==>
      CleanAt(remote, PageStop(remote, since, visits[r]))
  }

  /** With a peer that does not change, enough rounds make the table complete if and only if no multiple of a
      hundred rows falls inside a second. */
  lemma StaticSyncIsCompleteIff(ts: seq<map<string, FedRow>>, rounds: seq<Round>, peer: string, endpoint: string,
                                remote: seq<PeerSnap>, n: nat)
    requires IsRun(ts, rounds, peer, endpoint, remote) && Untouched(ts[0], peer, remote) && n <= |rounds|
    requires Ascending(remote) && (remote != [] ==> remote[0].ingestedAt > 0) && DistinctCandidates(remote)
    requires AllFull(remote, Visits(rounds, n)) && Cut(|Visits(rounds, n)|) >= |remote|
    ensures Complete(ts[n], peer, endpoint, remote) <==> CleanCuts(remote)
  {
    var visits := Visits(rounds, n);
    SyncIsCompleteIff(ts, rounds, peer, endpoint, remote, n);
    CatchesUp(remote, visits, 0, |visits|);
    assert visits[..|visits|] == visits;
    LosslessIffCleanCuts(remote, visits);
  }

  // ----- A peer with a busy second -----

  lemma {:induction false} CursorExists(rows: map<string, FedRow>, peer: string, among: set<string>)
    returns (cursor: int, found: bool)
    requires among <= rows.Keys
    ensures !found ==> cursor == 0 && forall c :: c in among ==> rows[c].peer != peer
    ensures found ==> exists c :: c in among && rows[c].peer == peer && rows[c].ingestedAt == cursor
    ensures forall c :: c in among && rows[c].peer == peer ==> rows[c].ingestedAt <= cursor
    decreases among
  {
    cursor, found := 0, false;
    if among != {} {
      var c :| c in among;
      cursor, found := CursorExists(rows, peer, among - {c});
      if rows[c].peer == peer && (!found || rows[c].ingestedAt > cursor) {
        cursor, found := rows[c].ingestedAt, true;
      }
    }
  }

  /** A run of `r` full visits to a peer whose table does not change. */
  lemma {:induction false} RunOfVisits(peer: string, endpoint: string, remote: seq<PeerSnap>, r: nat)
    returns (ts: seq<map<string, FedRow>>, rounds: seq<Round>)
    ensures IsRun(ts, rounds, peer, endpoint, remote) && ts[0] == map[] && |rounds| == r
    ensures forall i :: 0 <= i < r ==> rounds[i].Ours? && Full(remote, rounds[i].visit)
  {
    if r == 0 {
      ts, rounds := [map[]], [];
    } else {
      ts, rounds := RunOfVisits(peer, endpoint, remote, r - 1);
      var rows, v := ts[r - 1], Visit(|remote|, {});
      var since, _ := CursorExists(rows, peer, rows.Keys);
      var rows' := Stored(rows, peer, endpoint, KeptIn(remote, since, v));
      var ts', rounds' := ts + [rows'], rounds + [Ours(since, v)];
      forall i | 0 <= i < r
        ensures RoundAt(ts', rounds', peer, endpoint, remote, i)
      {
        if i < r - 1 {
          assert RoundAt(ts, rounds, peer, endpoint, remote, i);
        }
      }
      ts, rounds := ts', rounds';
    }
  }

  lemma {:induction false} VisitsOf(rounds: seq<Round>, n: nat)
    requires n <= |rounds| && forall i :: 0 <= i < n ==> rounds[i].Ours?
    ensures |Visits(rounds, n)| == n && forall i :: 0 <= i < n ==> Visits(rounds, n)[i] == rounds[i].visit
  {
    if n > 0 {
      VisitsOf(rounds, n - 1);
    }
  }

  /** 101 rows of distinct candidates, all ingested in second 1. */
  function BusySecond(): seq<PeerSnap> {
    seq(101, i requires 0 <= i => PeerSnap(seq(i, _ => 'x'), [], "node", 1))
  }

  lemma BusySecondIsDistinct()
    ensures Ascending(BusySecond()) && DistinctCandidates(BusySecond())
  {
    forall i, j | 0 <= i < j < 101
      ensures BusySecond()[i].candidate != BusySecond()[j].candidate
    {
      assert |BusySecond()[i].candidate| == i && |BusySecond()[j].candidate| == j;
    }
  }

  /** However many rounds are made, a peer that ingested 101 rows in one second is never copied completely. */
  lemma BusySecondIsNeverComplete(peer: string, endpoint: string, r: nat)
    returns (ts: seq<map<string, FedRow>>, rounds: seq<Round>)
    requires r >= 2
    ensures var remote := BusySecond();
            && Ascending(remote) && DistinctCandidates(remote)
            && IsRun(ts, rounds, peer, endpoint, remote) && ts[0] == map[] && |rounds| == r
            && (forall i :: 0 <= i < r ==> rounds[i].Ours? && Full(remote, rounds[i].visit))
            && !Complete(ts[r], peer, endpoint, remote)
  {
    var remote := BusySecond();
    BusySecondIsDistinct();
    ts, rounds := RunOfVisits(peer, endpoint, remote, r);
    VisitsOf(rounds, r);
    StaticSyncIsCompleteIff(ts, rounds, peer, endpoint, remote, r);
    assert remote[99].ingestedAt == remote[100].ingestedAt && !CleanAt(remote, Cut(1));
  }
}
