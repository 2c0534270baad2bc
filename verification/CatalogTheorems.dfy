/** What every run of ingests and revocations guarantees, however they interleave. */
module CatalogTheorems {
  import opened Basics
  import opened Schema
  import opened CatalogMachine
  import Hex

  // ----- Deleting index rows -----

  /** The remaining rows are exactly the rows of before that were not deleted. */
  lemma {:induction false} WithoutRows<T>(rows: seq<IndexRow<T>>, gone: set<string>)
    ensures forall r :: r in Without(rows, gone) <==> r in rows && r.candidate !in gone
  {
    if rows != [] {
      WithoutRows(rows[1..], gone);
      assert rows == [rows[0]] + rows[1..];
    }
  }

  /** Where a remaining row stood before. */
  lemma {:induction false} WithoutAt<T>(rows: seq<IndexRow<T>>, gone: set<string>, j: nat) returns (k: nat)
    requires j < |Without(rows, gone)|
    ensures k < |rows| && rows[k] == Without(rows, gone)[j] && rows[k].candidate !in gone
  {
    if rows[0].candidate !in gone && j == 0 {
      k := 0;
    } else {
      k := WithoutAt(rows[1..], gone, if rows[0].candidate in gone then j else j - 1);
      k := k + 1;
    }
  }

  lemma {:induction false} WithoutKeepsOneRowEach<T>(rows: seq<IndexRow<T>>, gone: set<string>)
    requires OneRowEach(rows)
    ensures OneRowEach(Without(rows, gone))
  {
    if rows != [] {
      WithoutKeepsOneRowEach(rows[1..], gone);
      var rest := Without(rows[1..], gone);
      forall j | 0 <= j < |rest|
        ensures rest[j].candidate != rows[0].candidate
      {
        var k := WithoutAt(rows[1..], gone, j);
      }
    }
  }

  lemma {:induction false} WithoutTwice<T>(rows: seq<IndexRow<T>>, a: set<string>, b: set<string>)
    ensures Without(Without(rows, a), b) == Without(rows, a + b)
  {
    if rows != [] {
      WithoutTwice(rows[1..], a, b);
      if rows[0].candidate !in a {
        var rest := Without(rows[1..], a);
        assert Without(rows, a) == [rows[0]] + rest && ([rows[0]] + rest)[1..] == rest;
      }
    }
  }

  lemma {:induction false} WithoutNone<T>(rows: seq<IndexRow<T>>)
    ensures Without(rows, {}) == rows
  {
    if rows != [] {
      WithoutNone(rows[1..]);
    }
  }

  // ----- Signatures -----

  /** A checked ingest carries a signature that verifies under its node's key. */
  ghost predicate JobVouched(cfg: Config, s: Shelf, job: Job) {
    job.at.StoreSnapshot? ==>
      job.node in s.nodes && Signed(cfg, s.nodes[job.node].publicKey, Snapshot(job.input.payload, job.at.sig, 0))
  }

  ghost predicate Vouched(cfg: Config, s: Shelf) {
    SnapshotsAreVouched(cfg, s) && forall i :: 0 <= i < |s.jobs| ==> JobVouched(cfg, s, s.jobs[i])
  }

  lemma ChecksVouch(cfg: Config, n: Node, input: Input)
    ensures var t := CheckInput(cfg, n, input);
            t.StoreSnapshot? ==> n.active && Signed(cfg, n.publicKey, Snapshot(input.payload, t.sig, 0))
  {
    if CheckInput(cfg, n, input).StoreSnapshot? && n.publicKey != [] {
      assert VerifySignature(cfg, n.publicKey, input.payload, input.signature) == Some(true);
    }
  }

  lemma RunVouches(cfg: Config, s: Shelf, i: nat, luck: Luck)
    requires Vouched(cfg, s) && Enabled(s, Run(i, luck))
    ensures Vouched(cfg, Next(cfg, s, Run(i, luck)))
  {
    var job, s' := s.jobs[i], Next(cfg, s, Run(i, luck));
    assert JobVouched(cfg, s, job);
    if job.at.FindNode? && luck.up && job.node in s.nodes {
      ChecksVouch(cfg, s.nodes[job.node], job.input);
    }
    forall j | 0 <= j < |s'.jobs|
      ensures JobVouched(cfg, s', s'.jobs[j])
    {
      assert j != i ==> JobVouched(cfg, s, s.jobs[j]);
    }
  }

  lemma StepVouches(cfg: Config, s: Shelf, step: Step)
    requires Vouched(cfg, s) && Enabled(s, step)
    ensures Vouched(cfg, Next(cfg, s, step))
  {
    if step.Run? {
      RunVouches(cfg, s, step.job, step.luck);
    } else {
      var s' := Next(cfg, s, step);
      forall j | 0 <= j < |s'.jobs|
        ensures JobVouched(cfg, s', s'.jobs[j])
      {
        assert j < |s.jobs| ==> JobVouched(cfg, s, s.jobs[j]);
      }
    }
  }

  /** In every reachable state, whichever statements failed and however requests interleaved, each snapshot
      verifies under its node's key if it has one. */
  lemma {:induction false} EverySnapshotIsVouched(cfg: Config, ss: seq<Shelf>, steps: seq<Step>, i: nat)
    requires IsTrace(cfg, ss, steps) && Initial(ss[0]) && i < |ss|
    ensures Vouched(cfg, ss[i])
  {
    if i > 0 {
      EverySnapshotIsVouched(cfg, ss, steps, i - 1);
      assert StepAt(cfg, ss, steps, i - 1);
      StepVouches(cfg, ss[i - 1], steps[i - 1]);
    }
  }

  // ----- Owners of snapshots -----

  predicate ActiveInv(s: Shelf) {
    && OwnersAreActive(s)
    && forall i :: 0 <= i < |s.jobs| && s.jobs[i].at.StoreSnapshot? ==>
                     s.jobs[i].node in s.nodes && s.nodes[s.jobs[i].node].active
  }

  lemma StepKeepsActive(cfg: Config, s: Shelf, step: Step)
    requires ActiveInv(s) && Enabled(s, step) && RevokesApart(s, step)
    ensures ActiveInv(Next(cfg, s, step))
  {
    if step.Run? && s.jobs[step.job].at.FindNode? && s.jobs[step.job].node in s.nodes {
      ChecksVouch(cfg, s.nodes[s.jobs[step.job].node], s.jobs[step.job].input);
    }
  }

  /** All revocations of the first `n` steps keep apart from ingests of their node. */
  ghost predicate AllRevokesApart(ss: seq<Shelf>, steps: seq<Step>, n: nat)
    requires n <= |steps| && |ss| == |steps| + 1
  {
    forall k :: 0 <= k < n ==> RevokesApart(ss[k], steps[k])
  }

  lemma {:induction false} OwnersStayActive(cfg: Config, ss: seq<Shelf>, steps: seq<Step>, i: nat)
    requires IsTrace(cfg, ss, steps) && Initial(ss[0]) && i < |ss| && AllRevokesApart(ss, steps, i)
    ensures ActiveInv(ss[i])
  {
    if i > 0 {
      OwnersStayActive(cfg, ss, steps, i - 1);
      assert StepAt(cfg, ss, steps, i - 1);
      StepKeepsActive(cfg, ss[i - 1], steps[i - 1]);
    }
  }

  // ----- Revocation -----

  /** The node is revoked and has no snapshot, nor an ingest that is about to store one. */
  predicate Gone(s: Shelf, node: string) {
    && node in s.nodes && !s.nodes[node].active
    && (forall k :: k in s.cat.snapshots ==> k.0 != node)
    && !AboutToStore(s, node)
  }

  predicate AboutToStore(s: Shelf, node: string) {
    exists i :: 0 <= i < |s.jobs| && s.jobs[i].node == node && s.jobs[i].at.StoreSnapshot?
  }

  lemma StepKeepsGone(cfg: Config, s: Shelf, step: Step, node: string)
    requires Gone(s, node) && Enabled(s, step)
    ensures Gone(Next(cfg, s, step), node)
  {
  }

  lemma {:induction false} GoneStays(cfg: Config, ss: seq<Shelf>, steps: seq<Step>, i: nat, j: nat, node: string)
    requires IsTrace(cfg, ss, steps) && i <= j < |ss| && Gone(ss[i], node)
    ensures Gone(ss[j], node)
  {
    if i < j {
      GoneStays(cfg, ss, steps, i, j - 1, node);
      assert StepAt(cfg, ss, steps, j - 1);
      StepKeepsGone(cfg, ss[j - 1], steps[j - 1], node);
    }
  }

  /** After a revocation no later state holds a snapshot of the node, unless an ingest of that node had
      passed its checks and was about to store one. */
  lemma RevocationIsFinal(cfg: Config, ss: seq<Shelf>, steps: seq<Step>, i: nat, j: nat, node: string)
    requires IsTrace(cfg, ss, steps) && i < j < |ss| && Revokes(ss[i], steps[i], node) && !AboutToStore(ss[i], node)
    ensures Gone(ss[j], node)
  {
    assert StepAt(cfg, ss, steps, i);
    GoneStays(cfg, ss, steps, i + 1, j, node);
  }

  // ----- Runs from a state -----

  ghost predicate Reaches(cfg: Config, s: Shelf, s': Shelf) {
    exists ss, steps :: RunBetween(cfg, s, s', ss, steps)
  }

  ghost predicate RunBetween(cfg: Config, s: Shelf, s': Shelf, ss: seq<Shelf>, steps: seq<Step>) {
    IsTrace(cfg, ss, steps) && ss[0] == s && ss[|steps|] == s'
  }

  lemma ReachesItself(cfg: Config, s: Shelf)
    ensures Reaches(cfg, s, s)
  {
    assert RunBetween(cfg, s, s, [s], []);
  }

  lemma Moved(cfg: Config, s0: Shelf, s: Shelf, step: Step) returns (s': Shelf)
    requires Reaches(cfg, s0, s) && Enabled(s, step)
    ensures s' == Next(cfg, s, step) && Reaches(cfg, s0, s')
  {
    s' := Next(cfg, s, step);
    var ss, steps :| RunBetween(cfg, s0, s, ss, steps);
    var ss', steps' := ss + [s'], steps + [step];
    forall i | 0 <= i < |steps'|
      ensures StepAt(cfg, ss', steps', i)
    {
      if i < |steps| {
        assert StepAt(cfg, ss, steps, i);
      }
    }
    assert RunBetween(cfg, s0, s', ss', steps');
  }

  ghost predicate CanStoreAgain(cfg: Config, s: Shelf, node: string) {
    exists s' :: Reaches(cfg, s, s') && HoldsSnapshot(s', node)
  }

  ghost predicate HoldsSnapshot(s: Shelf, node: string) {
    exists c :: (node, c) in s.cat.snapshots
  }

  /** A revoked node without snapshots can get one again if and only if an ingest of it has passed its
      checks before. */
  lemma CanStoreAgainIff(cfg: Config, s: Shelf, node: string)
    requires node in s.nodes && !s.nodes[node].active && !HoldsSnapshot(s, node)
    ensures CanStoreAgain(cfg, s, node) <==> AboutToStore(s, node)
  {
    forall k | k in s.cat.snapshots
      ensures k.0 != node
    {
      assert k == (k.0, k.1);
    }
    if AboutToStore(s, node) {
      var i :| 0 <= i < |s.jobs| && s.jobs[i].node == node && s.jobs[i].at.StoreSnapshot?;
      ReachesItself(cfg, s);
      var s' := Moved(cfg, s, s, Run(i, Luck(0, true)));
      assert (node, s.jobs[i].input.candidate) in s'.cat.snapshots;
      assert HoldsSnapshot(s', node);
    } else {
      forall s' | Reaches(cfg, s, s')
        ensures !HoldsSnapshot(s', node)
      {
        var ss, steps :| RunBetween(cfg, s, s', ss, steps);
        GoneStays(cfg, ss, steps, 0, |steps|, node);
        assert forall c :: (node, c) in s'.cat.snapshots ==> (node, c).0 != node;
      }
    }
  }

  // ----- Index rows are backed -----

  ghost predicate HasSnapshot(cat: Catalog, candidate: string) {
    exists n :: (n, candidate) in cat.snapshots
  }

  ghost predicate RowsAreBacked<T>(cat: Catalog, rows: seq<IndexRow<T>>) {
    forall i :: 0 <= i < |rows| ==> HasSnapshot(cat, rows[i].candidate)
  }

  /** The snapshot an ingest is about to index is stored. */
  predicate JobsAreBacked(s: Shelf) {
    forall i :: 0 <= i < |s.jobs| && (s.jobs[i].at.IndexText? || s.jobs[i].at.IndexVector?) ==>
                  (s.jobs[i].node, s.jobs[i].input.candidate) in s.cat.snapshots
  }

  lemma StepKeepsJobsBacked(cfg: Config, s: Shelf, step: Step)
    requires JobsAreBacked(s) && Enabled(s, step) && RevokesApart(s, step)
    ensures JobsAreBacked(Next(cfg, s, step))
  {
    if step.Run? && s.jobs[step.job].at.FindNode? && s.jobs[step.job].node in s.nodes {
      ChecksVouch(cfg, s.nodes[s.jobs[step.job].node], s.jobs[step.job].input);
    }
  }

  lemma RunKeepsSnapshots(cat: Catalog, job: Job, luck: Luck, c: string)
    requires HasSnapshot(cat, c)
    ensures HasSnapshot(CatalogAfter(cat, job, luck), c)
  {
    var n :| (n, c) in cat.snapshots;
    assert (n, c) in CatalogAfter(cat, job, luck).snapshots;
  }

  lemma RunKeepsBacking(cat: Catalog, job: Job, luck: Luck)
    requires job.at.IndexText? || job.at.IndexVector? ==> (job.node, job.input.candidate) in cat.snapshots
    ensures var cat' := CatalogAfter(cat, job, luck);
            && (RowsAreBacked(cat, cat.fts) ==> RowsAreBacked(cat', cat'.fts))
            && (RowsAreBacked(cat, cat.vec) ==> RowsAreBacked(cat', cat'.vec))
  {
    var cat' := CatalogAfter(cat, job, luck);
    WithoutRows(cat.fts, {job.input.candidate});
    if RowsAreBacked(cat, cat.fts) {
      forall i | 0 <= i < |cat'.fts|
        ensures HasSnapshot(cat', cat'.fts[i].candidate)
      {
        TextRowFrom(cat, job, luck, i);
        RunKeepsSnapshots(cat, job, luck, cat'.fts[i].candidate);
      }
    }
    if RowsAreBacked(cat, cat.vec) {
      forall i | 0 <= i < |cat'.vec|
        ensures HasSnapshot(cat', cat'.vec[i].candidate)
      {
        RunKeepsSnapshots(cat, job, luck, cat'.vec[i].candidate);
      }
    }
  }

  /** A text row after a statement was there before, or is that of the ingest. */
  lemma TextRowFrom(cat: Catalog, job: Job, luck: Luck, i: nat)
    requires i < |CatalogAfter(cat, job, luck).fts|
    ensures var row := CatalogAfter(cat, job, luck).fts[i];
            || row in cat.fts
            || (job.at.IndexText? && row == IndexRow(job.input.candidate, job.input.payload))
  {
    WithoutRows(cat.fts, {job.input.candidate});
    var kept := Without(cat.fts, {job.input.candidate});
    if job.at.IndexText? && luck.up && i < |kept| {
      assert kept[i] in kept;
    }
  }

  /** Another node than `node` holds a snapshot of the candidate. */
  ghost predicate HeldElsewhere(cat: Catalog, node: string, candidate: string) {
    exists n :: n != node && (n, candidate) in cat.snapshots
  }

  lemma HeldAfterDrop(cat: Catalog, node: string, luck: RevokeLuck, candidate: string)
    ensures HasSnapshot(Dropped(cat, node, luck), candidate) <==> HeldElsewhere(cat, node, candidate)
  {
    var cat' := Dropped(cat, node, luck);
    if HasSnapshot(cat', candidate) {
      var n :| (n, candidate) in cat'.snapshots;
      assert (n, candidate) in cat.snapshots && (n, candidate).0 != node;
    }
    if HeldElsewhere(cat, node, candidate) {
      var n :| n != node && (n, candidate) in cat.snapshots;
      assert (n, candidate) in cat'.snapshots;
    }
  }

  /** Rows whose delete failed and that were backed stay so exactly if another node holds the candidate. */
  lemma KeptRowsBackedIff<T>(cat: Catalog, node: string, luck: RevokeLuck, rows: seq<IndexRow<T>>, failed: set<string>)
    requires RowsAreBacked(cat, rows)
    ensures RowsAreBacked(Dropped(cat, node, luck), Without(rows, CandidatesOf(cat, node) - failed)) <==>
            forall i :: 0 <= i < |rows| && rows[i].candidate in CandidatesOf(cat, node) * failed ==>
                          HeldElsewhere(cat, node, rows[i].candidate)
  {
    var gone := CandidatesOf(cat, node);
    var cat', rows' := Dropped(cat, node, luck), Without(rows, gone - failed);
    WithoutRows(rows, gone - failed);
    forall i | 0 <= i < |rows|
      ensures HasSnapshot(cat', rows[i].candidate) <==> HeldElsewhere(cat, node, rows[i].candidate)
      ensures rows[i].candidate !in gone ==> HeldElsewhere(cat, node, rows[i].candidate)
    {
      HeldAfterDrop(cat, node, luck, rows[i].candidate);
      assert HasSnapshot(cat, rows[i].candidate);
      var n :| (n, rows[i].candidate) in cat.snapshots;
      assert n == node ==> (n, rows[i].candidate).1 in gone;
    }
    if RowsAreBacked(cat', rows') {
      forall i | 0 <= i < |rows| && rows[i].candidate in gone * failed
        ensures HeldElsewhere(cat, node, rows[i].candidate)
      {
        assert rows[i] in rows';
        var j :| 0 <= j < |rows'| && rows'[j] == rows[i];
      }
    }
    if forall i :: 0 <= i < |rows| && rows[i].candidate in gone * failed ==>
                     HeldElsewhere(cat, node, rows[i].candidate) {
      forall j | 0 <= j < |rows'|
        ensures HasSnapshot(cat', rows'[j].candidate)
      {
        var i := WithoutAt(rows, gone - failed, j);
      }
    }
  }

  /** The errors of a revocation's index deletes are ignored one by one. Rows that were backed stay so if and
      only if each candidate of the node that is indexed and whose delete failed has a snapshot of another
      node; this holds for each index by itself. */
  lemma RevokeKeepsBackingIff(cat: Catalog, node: string, luck: RevokeLuck)
    ensures RowsAreBacked(cat, cat.fts) ==>
              (RowsAreBacked(Dropped(cat, node, luck), Dropped(cat, node, luck).fts) <==>
               forall i :: 0 <= i < |cat.fts| && cat.fts[i].candidate in CandidatesOf(cat, node) * luck.ftsFailed ==>
                             HeldElsewhere(cat, node, cat.fts[i].candidate))
    ensures RowsAreBacked(cat, cat.vec) ==>
              (RowsAreBacked(Dropped(cat, node, luck), Dropped(cat, node, luck).vec) <==>
               forall i :: 0 <= i < |cat.vec| && cat.vec[i].candidate in CandidatesOf(cat, node) * luck.vecFailed ==>
                             HeldElsewhere(cat, node, cat.vec[i].candidate))
  {
    if RowsAreBacked(cat, cat.fts) {
      KeptRowsBackedIff(cat, node, luck, cat.fts, luck.ftsFailed);
    }
    if RowsAreBacked(cat, cat.vec) {
      KeptRowsBackedIff(cat, node, luck, cat.vec, luck.vecFailed);
    }
  }

  lemma StepKeepsBacking(cfg: Config, s: Shelf, step: Step)
    requires JobsAreBacked(s) && Enabled(s, step)
    ensures var cat' := Next(cfg, s, step).cat;
            && (RowsAreBacked(s.cat, s.cat.fts) && FtsDeletesSucceed(step) ==> RowsAreBacked(cat', cat'.fts))
            && (RowsAreBacked(s.cat, s.cat.vec) && VecDeletesSucceed(step) ==> RowsAreBacked(cat', cat'.vec))
  {
    if step.Run? {
      RunKeepsBacking(s.cat, s.jobs[step.job], step.luck);
    } else if step.Revoke? {
      RevokeKeepsBackingIff(s.cat, step.node, step.revoke);
    }
  }

  lemma {:induction false} RowsStayBacked(cfg: Config, ss: seq<Shelf>, steps: seq<Step>, i: nat)
    requires IsTrace(cfg, ss, steps) && Initial(ss[0]) && i < |ss| && AllRevokesApart(ss, steps, i)
    ensures JobsAreBacked(ss[i])
    ensures (forall k :: 0 <= k < i ==> FtsDeletesSucceed(steps[k])) ==> RowsAreBacked(ss[i].cat, ss[i].cat.fts)
    ensures (forall k :: 0 <= k < i ==> VecDeletesSucceed(steps[k])) ==> RowsAreBacked(ss[i].cat, ss[i].cat.vec)
  {
    if i > 0 {
      RowsStayBacked(cfg, ss, steps, i - 1);
      assert StepAt(cfg, ss, steps, i - 1);
      StepKeepsJobsBacked(cfg, ss[i - 1], steps[i - 1]);
      StepKeepsBacking(cfg, ss[i - 1], steps[i - 1]);
    }
  }

  /** In every reachable state each snapshot verifies under its node's key. If moreover no node was revoked
      while an ingest of it was under way, each snapshot belongs to an active node, and each row of an index
      names a candidate with a snapshot, as long as the deletes of revocations from that index succeeded. */
  lemma CatalogIsSound(cfg: Config, ss: seq<Shelf>, steps: seq<Step>, i: nat)
    requires IsTrace(cfg, ss, steps) && Initial(ss[0]) && i < |ss|
    ensures SnapshotsAreVouched(cfg, ss[i])
    ensures AllRevokesApart(ss, steps, i) ==>
              && OwnersAreActive(ss[i])
              && ((forall k :: 0 <= k < i ==> FtsDeletesSucceed(steps[k])) ==> RowsAreBacked(ss[i].cat, ss[i].cat.fts))
              && ((forall k :: 0 <= k < i ==> VecDeletesSucceed(steps[k])) ==> RowsAreBacked(ss[i].cat, ss[i].cat.vec))
  {
    EverySnapshotIsVouched(cfg, ss, steps, i);
    if AllRevokesApart(ss, steps, i) {
      OwnersStayActive(cfg, ss, steps, i);
      RowsStayBacked(cfg, ss, steps, i);
    }
  }
}
