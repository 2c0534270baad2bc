/** Runs that lose what the catalog theorems set conditions for. */
module CatalogRuns {
  import opened Basics
  import opened Schema
  import opened CatalogMachine
  import opened CatalogTheorems
  import opened CatalogIndex
  import Hex

  predicate Keyless(s: Shelf, node: string) {
    node in s.nodes && s.nodes[node].active && s.nodes[node].publicKey == []
  }

  /** Unsigned input that passes the checks of a node without a key. */
  predicate Plain(cfg: Config, input: Input) {
    && |input.payload| <= MAX_PAYLOAD && input.signature == ""
    && (|input.embedding| > 0 && cfg.embedDim > 0 ==> |input.embedding[0]| == cfg.embedDim)
  }

  /** Request `i` runs one statement, which succeeds. */
  lemma Does(cfg: Config, s0: Shelf, s: Shelf, i: nat) returns (s': Shelf)
    requires Reaches(cfg, s0, s) && i < |s.jobs| && !s.jobs[i].at.Done?
    ensures Reaches(cfg, s0, s') && s' == Next(cfg, s, Run(i, Luck(0, true)))
  {
    s' := Moved(cfg, s0, s, Run(i, Luck(0, true)));
  }

  /** A new ingest that has passed its checks. */
  lemma Checked(cfg: Config, s0: Shelf, s: Shelf, node: string, input: Input) returns (s': Shelf)
    requires Reaches(cfg, s0, s) && Keyless(s, node) && Plain(cfg, input)
    ensures Reaches(cfg, s0, s') && s' == s.(jobs := s.jobs + [Job(node, input, StoreSnapshot([]))])
  {
    assert Hex.Decode("") == Some([]);
    var m := Moved(cfg, s0, s, Begin(node, input));
    s' := Does(cfg, s0, m, |s.jobs|);
  }

  /** A new ingest that has stored its snapshot. */
  lemma StoredBy(cfg: Config, s0: Shelf, s: Shelf, node: string, input: Input) returns (s': Shelf)
    requires Reaches(cfg, s0, s) && Keyless(s, node) && Plain(cfg, input)
    ensures Reaches(cfg, s0, s') && s'.jobs == s.jobs + [Job(node, input, IndexText)] && s'.nodes == s.nodes
    ensures s'.cat == s.cat.(snapshots := s.cat.snapshots[(node, input.candidate) := Snapshot(input.payload, [], 0)])
  {
    var m := Checked(cfg, s0, s, node, input);
    s' := Does(cfg, s0, m, |s.jobs|);
  }

  /** A whole ingest without a vector, up to its ping. */
  lemma IngestedBy(cfg: Config, s0: Shelf, s: Shelf, node: string, input: Input) returns (s': Shelf)
    requires Reaches(cfg, s0, s) && Keyless(s, node) && Plain(cfg, input) && input.embedding == []
    ensures Reaches(cfg, s0, s') && s'.jobs == s.jobs + [Job(node, input, StampPing)] && s'.nodes == s.nodes
    ensures s'.cat == s.cat.(snapshots := s.cat.snapshots[(node, input.candidate) := Snapshot(input.payload, [], 0)],
                             fts := Without(s.cat.fts, {input.candidate}) + [IndexRow(input.candidate, input.payload)])
  {
    var m := StoredBy(cfg, s0, s, node, input);
    s' := Does(cfg, s0, m, |s.jobs|);
  }

  /** Two nodes push one candidate and the first of them is revoked, every statement succeeding and no two
      requests overlapping: the candidate's other snapshot can no longer be found. */
  lemma SharedCandidateIsLost(cfg: Config, s0: Shelf, a: string, b: string, input: Input) returns (s: Shelf)
    requires Initial(s0) && a != b && Keyless(s0, a) && Keyless(s0, b) && Plain(cfg, input) && input.embedding == []
    ensures Reaches(cfg, s0, s) && a in s.nodes && !s.nodes[a].active
    ensures (b, input.candidate) in s.cat.snapshots && !Indexed(s.cat, input.candidate)
  {
    ReachesItself(cfg, s0);
    var m := IngestedBy(cfg, s0, s0, a, input);
    var n := IngestedBy(cfg, s0, m, b, input);
    var luck := RevokeLuck(0, true, {}, {});
    s := Moved(cfg, s0, n, Revoke(a, luck));
    IndexedAfterDrop(n.cat, a, luck, input.candidate);
    assert (a, input.candidate) in n.cat.snapshots && (a, input.candidate).1 in CandidatesOf(n.cat, a);
  }

  /** A node pushes an embedding while the vector extension is there and is revoked after it has gone: the
      vector row stays without a snapshot. */
  lemma FailedDeleteLeavesRow(cfg: Config, s0: Shelf, a: string, input: Input) returns (s: Shelf)
    requires Initial(s0) && Keyless(s0, a) && Plain(cfg, input) && |input.embedding| > 0
    ensures Reaches(cfg, s0, s) && |s.cat.vec| == 1 && s.cat.vec[0].candidate == input.candidate
    ensures !HasSnapshot(s.cat, input.candidate) && !RowsAreBacked(s.cat, s.cat.vec)
  {
    ReachesItself(cfg, s0);
    var k := StoredBy(cfg, s0, s0, a, input);
    var l := Does(cfg, s0, k, 0);
    var m := Does(cfg, s0, l, 0);
    assert m.cat.vec == [IndexRow(input.candidate, input.embedding[0])];
    var gone := CandidatesOf(m.cat, a) - {input.candidate};
    assert (a, input.candidate) in m.cat.snapshots;
    s := Moved(cfg, s0, m, Revoke(a, RevokeLuck(0, true, {}, {input.candidate})));
    WithoutRows(m.cat.vec, gone);
    assert Without(m.cat.vec, gone) == m.cat.vec;
  }

  /** An ingest that has passed its checks outlives the revocation of its node: a snapshot of an inactive
      node is stored, and found. */
  lemma IngestOutlivesRevocation(cfg: Config, s0: Shelf, a: string, input: Input) returns (s: Shelf)
    requires Initial(s0) && Keyless(s0, a) && Plain(cfg, input)
    ensures Reaches(cfg, s0, s) && a in s.nodes && !s.nodes[a].active
    ensures (a, input.candidate) in s.cat.snapshots && Indexed(s.cat, input.candidate)
  {
    ReachesItself(cfg, s0);
    var k := Checked(cfg, s0, s0, a, input);
    var l := Moved(cfg, s0, k, Revoke(a, RevokeLuck(0, true, {}, {})));
    var m := Does(cfg, s0, l, 0);
    s := Does(cfg, s0, m, 0);
    assert s.cat.fts[|s.cat.fts| - 1].candidate == input.candidate;
  }

  /** A revocation between an ingest's two writes leaves a text row without a snapshot. */
  lemma RevocationBetweenWritesLeavesRow(cfg: Config, s0: Shelf, a: string, input: Input) returns (s: Shelf)
    requires Initial(s0) && Keyless(s0, a) && Plain(cfg, input)
    ensures Reaches(cfg, s0, s) && Indexed(s.cat, input.candidate) && !HasSnapshot(s.cat, input.candidate)
  {
    ReachesItself(cfg, s0);
    var k := StoredBy(cfg, s0, s0, a, input);
    var l := Moved(cfg, s0, k, Revoke(a, RevokeLuck(0, true, {}, {})));
    s := Does(cfg, s0, l, 0);
    assert s.cat.fts[|s.cat.fts| - 1].candidate == input.candidate;
  }

  /** Two ingests of one snapshot that cross leave the index with the payload that was overwritten, and no
      ingest is left to put it right. */
  lemma CrossedIngestsLeaveStaleRow(cfg: Config, s0: Shelf, a: string, first: Input, second: Input) returns (s: Shelf)
    requires Initial(s0) && Keyless(s0, a) && Plain(cfg, first) && Plain(cfg, second)
    requires first.candidate == second.candidate && first.payload != second.payload
    requires first.embedding == second.embedding == []
    ensures Reaches(cfg, s0, s) && IndexRow(first.candidate, first.payload) in s.cat.fts
    ensures !IsPayload(s.cat, first.candidate, first.payload) && !Unindexed(s, first.candidate)
  {
    ReachesItself(cfg, s0);
    var k := StoredBy(cfg, s0, s0, a, first);
    var l := StoredBy(cfg, s0, k, a, second);
    var m := Does(cfg, s0, l, 1);
    s := Does(cfg, s0, m, 0);
    assert s.cat.fts[|s.cat.fts| - 1] == IndexRow(first.candidate, first.payload);
  }
}
