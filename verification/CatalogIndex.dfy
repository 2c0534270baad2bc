/** The full-text index follows the snapshots, and how overlapping requests can part them. */
module CatalogIndex {
  import opened Basics
  import opened Schema
  import opened CatalogMachine
  import opened CatalogTheorems
  import Hex

  // ----- One row for each candidate -----

  lemma RunKeepsOneRowEach(cat: Catalog, job: Job, luck: Luck)
    requires OneRowEach(cat.fts)
    ensures OneRowEach(CatalogAfter(cat, job, luck).fts)
  {
    if job.at.IndexText? && luck.up {
      var c := job.input.candidate;
      var kept := Without(cat.fts, {c});
      WithoutKeepsOneRowEach(cat.fts, {c});
      forall i | 0 <= i < |kept|
        ensures kept[i].candidate != c
      {
        var k := WithoutAt(cat.fts, {c}, i);
      }
    }
  }

  /** No candidate ever has two rows in the full-text index. */
  lemma {:induction false} OneTextRowEach(cfg: Config, ss: seq<Shelf>, steps: seq<Step>, i: nat)
    requires IsTrace(cfg, ss, steps) && Initial(ss[0]) && i < |ss|
    ensures OneRowEach(ss[i].cat.fts)
  {
    if i > 0 {
      OneTextRowEach(cfg, ss, steps, i - 1);
      assert StepAt(cfg, ss, steps, i - 1);
      var s, step := ss[i - 1], steps[i - 1];
      if step.Run? {
        RunKeepsOneRowEach(s.cat, s.jobs[step.job], step.luck);
      } else if step.Revoke? {
        WithoutKeepsOneRowEach(s.cat.fts, CandidatesOf(s.cat, step.node) - step.revoke.ftsFailed);
      }
    }
  }

  // ----- Freshness -----

  /** An ingest about to index its text finds its own payload in the snapshot. */
  predicate JobsAreCurrent(s: Shelf) {
    forall i :: 0 <= i < |s.jobs| && s.jobs[i].at.IndexText? ==>
                  Current(s.cat, s.jobs[i].node, s.jobs[i].input.candidate, s.jobs[i].input.payload)
  }

  predicate Current(cat: Catalog, node: string, candidate: string, payload: bytes) {
    (node, candidate) in cat.snapshots && cat.snapshots[(node, candidate)].payload == payload
  }

  /** The step keeps apart from other requests and its writes to the full-text index succeed. */
  predicate Orderly(s: Shelf, step: Step) {
    RevokesApart(s, step) && StoresApart(s, step) && FtsWritesSucceed(s, step)
  }

  ghost predicate AllOrderly(ss: seq<Shelf>, steps: seq<Step>, n: nat)
    requires n <= |steps| && |ss| == |steps| + 1
  {
    forall k :: 0 <= k < n ==> Orderly(ss[k], steps[k])
  }

  lemma StepKeepsCurrent(cfg: Config, s: Shelf, step: Step)
    requires JobsAreCurrent(s) && Enabled(s, step) && Orderly(s, step)
    ensures JobsAreCurrent(Next(cfg, s, step))
  {
    var s' := Next(cfg, s, step);
    forall j | 0 <= j < |s'.jobs| && s'.jobs[j].at.IndexText?
      ensures Current(s'.cat, s'.jobs[j].node, s'.jobs[j].input.candidate, s'.jobs[j].input.payload)
    {
      if step.Run? && step.job == j {
        FindNeverIndexes(cfg, s.nodes, s.jobs[j], step.luck);
      }
    }
  }

  lemma FindNeverIndexes(cfg: Config, nodes: map<string, Node>, job: Job, luck: Luck)
    ensures TaskAfter(cfg, nodes, job, luck).IndexText? ==>
              job.at.IndexText? || (job.at.StoreSnapshot? && luck.up) || job.at.Done?
    ensures job.at.IndexText? ==> !TaskAfter(cfg, nodes, job, luck).IndexText?
  {
    if job.at.FindNode? && job.node in nodes {
      ChecksVouch(cfg, nodes[job.node], job.input);
    }
  }

  /** The candidate's row, if any, is fresh. */
  ghost predicate FreshFor(s: Shelf, row: IndexRow<bytes>) {
    IsPayload(s.cat, row.candidate, row.data) || Unindexed(s, row.candidate)
  }

  lemma UnindexedStays(cfg: Config, s: Shelf, step: Step, c: string)
    requires Enabled(s, step) && Unindexed(s, c)
    requires step.Run? && s.jobs[step.job].at.IndexText? ==> s.jobs[step.job].input.candidate != c
    ensures Unindexed(Next(cfg, s, step), c)
  {
    var i :| 0 <= i < |s.jobs| && s.jobs[i].at.IndexText? && s.jobs[i].input.candidate == c;
    assert Next(cfg, s, step).jobs[i] == s.jobs[i];
  }

  /** A row that a statement of an ingest leaves alone stays fresh. */
  lemma RunKeepsRowFresh(cfg: Config, s: Shelf, i: nat, luck: Luck, row: IndexRow<bytes>)
    requires Enabled(s, Run(i, luck)) && FreshFor(s, row)
    requires s.jobs[i].at.IndexText? ==> s.jobs[i].input.candidate != row.candidate
    ensures FreshFor(Next(cfg, s, Run(i, luck)), row)
  {
    var s', job := Next(cfg, s, Run(i, luck)), s.jobs[i];
    if Unindexed(s, row.candidate) {
      UnindexedStays(cfg, s, Run(i, luck), row.candidate);
    } else {
      var n :| (n, row.candidate) in s.cat.snapshots && s.cat.snapshots[(n, row.candidate)].payload == row.data;
      if job.at.StoreSnapshot? && luck.up && (job.node, job.input.candidate) == (n, row.candidate) {
        assert s'.jobs[i].at.IndexText?;
        assert Unindexed(s', row.candidate);
      } else {
        assert (n, row.candidate) in s'.cat.snapshots && s'.cat.snapshots[(n, row.candidate)].payload == row.data;
      }
    }
  }

  lemma RunKeepsFresh(cfg: Config, s: Shelf, i: nat, luck: Luck)
    requires Fresh(s) && JobsAreCurrent(s) && Enabled(s, Run(i, luck)) && Orderly(s, Run(i, luck))
    ensures Fresh(Next(cfg, s, Run(i, luck)))
  {
    var s', job := Next(cfg, s, Run(i, luck)), s.jobs[i];
    forall j | 0 <= j < |s'.cat.fts|
      ensures FreshFor(s', s'.cat.fts[j])
    {
      var row := s'.cat.fts[j];
      TextRowFrom(s.cat, job, luck, j);
      if job.at.IndexText? && row.candidate == job.input.candidate {
        IndexedRowIs(s.cat, job, luck, j);
        assert Current(s'.cat, job.node, job.input.candidate, job.input.payload);
      } else {
        var k :| 0 <= k < |s.cat.fts| && s.cat.fts[k] == row;
        assert FreshFor(s, row);
        RunKeepsRowFresh(cfg, s, i, luck, row);
      }
    }
  }

  /** The row of the indexed candidate is the ingest's own. */
  lemma IndexedRowIs(cat: Catalog, job: Job, luck: Luck, j: nat)
    requires job.at.IndexText? && luck.up && j < |CatalogAfter(cat, job, luck).fts|
    requires CatalogAfter(cat, job, luck).fts[j].candidate == job.input.candidate
    ensures CatalogAfter(cat, job, luck).fts[j].data == job.input.payload
  {
    var kept := Without(cat.fts, {job.input.candidate});
    if j < |kept| {
      var k := WithoutAt(cat.fts, {job.input.candidate}, j);
    }
  }

  lemma RevokeKeepsFresh(cfg: Config, s: Shelf, node: string, luck: RevokeLuck)
    requires Fresh(s) && luck.ftsFailed == {}
    ensures Fresh(Next(cfg, s, Revoke(node, luck)))
  {
    var s', gone := Next(cfg, s, Revoke(node, luck)), CandidatesOf(s.cat, node);
    if s'.cat != s.cat {
      assert gone - luck.ftsFailed == gone;
      forall j | 0 <= j < |s'.cat.fts|
        ensures FreshFor(s', s'.cat.fts[j])
      {
        var k := WithoutAt(s.cat.fts, gone, j);
        var row := s.cat.fts[k];
        assert FreshFor(s, row);
        if Unindexed(s, row.candidate) {
          UnindexedStays(cfg, s, Revoke(node, luck), row.candidate);
        } else {
          var n :| (n, row.candidate) in s.cat.snapshots && s.cat.snapshots[(n, row.candidate)].payload == row.data;
          assert (n, row.candidate).1 !in gone;
          assert (n, row.candidate) in s'.cat.snapshots;
        }
      }
    }
  }

  lemma OtherKeepsFresh(cfg: Config, s: Shelf, step: Step)
    requires Fresh(s) && Enabled(s, step) && !step.Run? && !step.Revoke?
    ensures Fresh(Next(cfg, s, step))
  {
    var s' := Next(cfg, s, step);
    forall j | 0 <= j < |s'.cat.fts|
      ensures FreshFor(s', s'.cat.fts[j])
    {
      assert FreshFor(s, s.cat.fts[j]);
      if Unindexed(s, s.cat.fts[j].candidate) {
        UnindexedStays(cfg, s, step, s.cat.fts[j].candidate);
      } else {
        assert IsPayload(s'.cat, s.cat.fts[j].candidate, s.cat.fts[j].data);
      }
    }
  }

  /** While requests on one snapshot keep apart and writes to the full-text index succeed, each indexed
      candidate has exactly one row, and its content is the payload of some snapshot still stored for it,
      unless an ingest of it has just stored another and is about to replace the row. */
  lemma {:induction false} IndexIsFresh(cfg: Config, ss: seq<Shelf>, steps: seq<Step>, i: nat)
    requires IsTrace(cfg, ss, steps) && Initial(ss[0]) && i < |ss| && AllOrderly(ss, steps, i)
    ensures OneRowEach(ss[i].cat.fts) && Fresh(ss[i]) && JobsAreCurrent(ss[i])
  {
    OneTextRowEach(cfg, ss, steps, i);
    if i > 0 {
      IndexIsFresh(cfg, ss, steps, i - 1);
      assert StepAt(cfg, ss, steps, i - 1) && Orderly(ss[i - 1], steps[i - 1]);
      var s, step := ss[i - 1], steps[i - 1];
      StepKeepsCurrent(cfg, s, step);
      if step.Run? {
        RunKeepsFresh(cfg, s, step.job, step.luck);
      } else if step.Revoke? {
        RevokeKeepsFresh(cfg, s, step.node, step.revoke);
      } else {
        OtherKeepsFresh(cfg, s, step);
      }
    }
  }

  // ----- Cover -----

  ghost predicate CoveredFor(s: Shelf, candidate: string) {
    Indexed(s.cat, candidate) || Unindexed(s, candidate)
  }

  lemma IndexedStays(cat: Catalog, job: Job, luck: Luck, c: string)
    requires Indexed(cat, c)
    ensures Indexed(CatalogAfter(cat, job, luck), c)
  {
    var i :| 0 <= i < |cat.fts| && cat.fts[i].candidate == c;
    var cat' := CatalogAfter(cat, job, luck);
    if job.at.IndexText? && luck.up {
      var d := job.input.candidate;
      var kept := Without(cat.fts, {d});
      if c == d {
        assert cat'.fts[|kept|].candidate == c;
      } else {
        WithoutRows(cat.fts, {d});
        assert cat.fts[i] in kept;
        var j :| 0 <= j < |kept| && kept[j] == cat.fts[i];
        assert cat'.fts[j].candidate == c;
      }
    } else {
      assert cat'.fts[i].candidate == c;
    }
  }

  lemma RunKeepsCovered(cfg: Config, s: Shelf, i: nat, luck: Luck)
    requires Covered(s) && Enabled(s, Run(i, luck)) && FtsWritesSucceed(s, Run(i, luck))
    ensures Covered(Next(cfg, s, Run(i, luck)))
  {
    var s', job := Next(cfg, s, Run(i, luck)), s.jobs[i];
    forall k | k in s'.cat.snapshots
      ensures CoveredFor(s', k.1)
    {
      var c := k.1;
      if job.at.StoreSnapshot? && luck.up && c == job.input.candidate {
        assert s'.jobs[i].at.IndexText?;
      } else if job.at.IndexText? && c == job.input.candidate {
        assert s'.cat.fts[|s'.cat.fts| - 1].candidate == c;
      } else {
        assert k in s.cat.snapshots && CoveredFor(s, c);
        if Indexed(s.cat, c) {
          IndexedStays(s.cat, job, luck, c);
        } else {
          UnindexedStays(cfg, s, Run(i, luck), c);
        }
      }
    }
  }

  /** Every candidate with a snapshot has a row. */
  ghost predicate AllIndexed(cat: Catalog) {
    forall k :: k in cat.snapshots ==> Indexed(cat, k.1)
  }

  lemma IndexedAfterDrop(cat: Catalog, node: string, luck: RevokeLuck, c: string)
    ensures Indexed(Dropped(cat, node, luck), c) <==>
            Indexed(cat, c) && c !in CandidatesOf(cat, node) - luck.ftsFailed
  {
    var cat', gone := Dropped(cat, node, luck), CandidatesOf(cat, node) - luck.ftsFailed;
    WithoutRows(cat.fts, gone);
    if Indexed(cat', c) {
      var j :| 0 <= j < |cat'.fts| && cat'.fts[j].candidate == c;
      var k := WithoutAt(cat.fts, gone, j);
    }
    if Indexed(cat, c) && c !in gone {
      var i :| 0 <= i < |cat.fts| && cat.fts[i].candidate == c;
      assert cat.fts[i] in cat'.fts;
      var j :| 0 <= j < |cat'.fts| && cat'.fts[j] == cat.fts[i];
      assert cat'.fts[j].candidate == c;
    }
  }

  /** Revoking a node takes every candidate it pushed out of the index. So an index with a row for every
      snapshot still has them afterwards if and only if each candidate that another node holds as well is
      one whose delete failed. */
  lemma RevokeKeepsCoverIff(cat: Catalog, node: string, luck: RevokeLuck)
    requires AllIndexed(cat)
    ensures AllIndexed(Dropped(cat, node, luck)) <==>
            forall k, l :: k in cat.snapshots && l in cat.snapshots && k.0 == node && k.1 == l.1 && l.0 != node ==>
                             k.1 in luck.ftsFailed
  {
    var cat', gone := Dropped(cat, node, luck), CandidatesOf(cat, node);
    forall l | l in cat'.snapshots
      ensures Indexed(cat', l.1) <==> l.1 !in gone - luck.ftsFailed
    {
      IndexedAfterDrop(cat, node, luck, l.1);
    }
    if AllIndexed(cat') {
      forall k, l | k in cat.snapshots && l in cat.snapshots && k.0 == node && k.1 == l.1 && l.0 != node
        ensures k.1 in luck.ftsFailed
      {
        assert l in cat'.snapshots && k.1 in gone;
      }
    }
  }

  /** `pusher` names the only node that pushes each candidate. */
  predicate PushesOwn(pusher: string -> string, step: Step) {
    step.Begin? ==> step.node == pusher(step.input.candidate)
  }

  predicate OwnSnapshots(s: Shelf, pusher: string -> string) {
    && (forall k :: k in s.cat.snapshots ==> k.0 == pusher(k.1))
    && (forall i :: 0 <= i < |s.jobs| ==> s.jobs[i].node == pusher(s.jobs[i].input.candidate))
  }

  lemma RevokeKeepsCovered(cfg: Config, s: Shelf, node: string, luck: RevokeLuck, pusher: string -> string)
    requires Covered(s) && OwnSnapshots(s, pusher)
    ensures Covered(Next(cfg, s, Revoke(node, luck)))
  {
    var s' := Next(cfg, s, Revoke(node, luck));
    if s'.cat != s.cat {
      forall k | k in s'.cat.snapshots
        ensures CoveredFor(s', k.1)
      {
        assert k in s.cat.snapshots && CoveredFor(s, k.1);
        IndexedAfterDrop(s.cat, node, luck, k.1);
        if Unindexed(s, k.1) {
          UnindexedStays(cfg, s, Revoke(node, luck), k.1);
        }
      }
    }
  }

  lemma {:induction false} IndexCovers(cfg: Config, ss: seq<Shelf>, steps: seq<Step>, i: nat, pusher: string -> string)
    requires IsTrace(cfg, ss, steps) && Initial(ss[0]) && i < |ss| && AllOrderly(ss, steps, i)
    requires forall k :: 0 <= k < i ==> PushesOwn(pusher, steps[k])
    ensures Covered(ss[i]) && OwnSnapshots(ss[i], pusher)
  {
    if i > 0 {
      IndexCovers(cfg, ss, steps, i - 1, pusher);
      assert StepAt(cfg, ss, steps, i - 1) && Orderly(ss[i - 1], steps[i - 1]);
      var s, step := ss[i - 1], steps[i - 1];
      if step.Run? {
        RunKeepsCovered(cfg, s, step.job, step.luck);
      } else if step.Revoke? {
        RevokeKeepsCovered(cfg, s, step.node, step.revoke, pusher);
      } else {
        forall k | k in ss[i].cat.snapshots
          ensures CoveredFor(ss[i], k.1)
        {
          assert CoveredFor(s, k.1);
          if Unindexed(s, k.1) {
            UnindexedStays(cfg, s, step, k.1);
          }
        }
      }
    }
  }

  /** If moreover each candidate is pushed by one node only, the full-text index is, in every reachable state
      and for every candidate not being ingested, exactly the view of `snapshots` from candidates to payloads. */
  lemma IndexEqualsSnapshots(cfg: Config, ss: seq<Shelf>, steps: seq<Step>, i: nat, pusher: string -> string,
                             candidate: string, payload: bytes)
    requires IsTrace(cfg, ss, steps) && Initial(ss[0]) && i < |ss| && AllOrderly(ss, steps, i)
    requires forall k :: 0 <= k < i ==> PushesOwn(pusher, steps[k])
    requires !Unindexed(ss[i], candidate)
    ensures IndexRow(candidate, payload) in ss[i].cat.fts <==>
            Current(ss[i].cat, pusher(candidate), candidate, payload)
    ensures OneRowEach(ss[i].cat.fts)
  {
    IndexIsFresh(cfg, ss, steps, i);
    IndexCovers(cfg, ss, steps, i, pusher);
    var cat, n := ss[i].cat, pusher(candidate);
    if IndexRow(candidate, payload) in cat.fts {
      var j :| 0 <= j < |cat.fts| && cat.fts[j] == IndexRow(candidate, payload);
      assert FreshFor(ss[i], cat.fts[j]);
    }
    if Current(cat, n, candidate, payload) {
      assert CoveredFor(ss[i], (n, candidate).1);
      var j :| 0 <= j < |cat.fts| && cat.fts[j].candidate == candidate;
      assert FreshFor(ss[i], cat.fts[j]);
      assert cat.fts[j] == IndexRow(candidate, payload);
    }
  }

  // ----- Requests that do not overlap -----

  /** The step runs an ingest while no other is unfinished, or revokes while none is. */
  predicate OneAtATime(s: Shelf, step: Step) {
    && (step.Revoke? ==> forall i :: 0 <= i < |s.jobs| ==> s.jobs[i].at.Done?)
    && (step.Run? ==> forall i :: 0 <= i < |s.jobs| && i != step.job ==> s.jobs[i].at.Done?)
  }

  lemma OneAtATimeIsApart(s: Shelf, step: Step)
    requires Enabled(s, step) && OneAtATime(s, step)
    ensures RevokesApart(s, step) && StoresApart(s, step)
  {
  }
}
