/** Ingest, revocation and profile lookup on the database. */
module CatalogService {
  import opened Basics
  import opened Schema
  import opened CatalogMachine
  import CatalogTheorems
  import Hex
  import Nodes

  method UpsertSnapshot(db: Database, node: string, input: Input, sig: bytes, now: int, up: bool) returns (ok: bool)
    modifies db`snapshots
    ensures ok == up
    ensures db.snapshots == if up then WithSnapshot(old(db.snapshots), node, input, sig, now) else old(db.snapshots)
  {
    ok := up;
    if up {
      db.snapshots := db.snapshots[(node, input.candidate) := Snapshot(input.payload, sig, now)];
    }
  }

  /** Deletes the candidate's rows and inserts one, in one transaction. */
  method ReplaceFTS5Row(db: Database, candidate: string, content: bytes, up: bool)
    modifies db`fts
    ensures db.fts == if up then Without(old(db.fts), {candidate}) + [IndexRow(candidate, content)] else old(db.fts)
  {
    if up {
      db.fts := Without(db.fts, {candidate});
      db.fts := db.fts + [IndexRow(candidate, content)];
    }
  }

  /** The vector index has no key, so the row is always added. */
  method UpsertVec0Embedding(db: Database, candidate: string, embedding: seq<seq<real>>, up: bool)
    modifies db`vec
    ensures db.vec == if |embedding| > 0 && up then old(db.vec) + [IndexRow(candidate, embedding[0])] else old(db.vec)
  {
    if |embedding| > 0 && up {
      db.vec := db.vec + [IndexRow(candidate, embedding[0])];
    }
  }

  /** The statements of one ingest in order, one luck for each. What other requests do in between is the
      machine's matter. */
  method Process(db: Database, cfg: Config, node: string, input: Input, lucks: seq<Luck>) returns (a: Answer)
    requires |lucks| >= 5
    modifies db`nodes, db`snapshots, db`fts, db`vec
    ensures (db.nodes, db.CatalogTables(), Done(a)) ==
            Alone(cfg, old(db.nodes), old(db.CatalogTables()), Job(node, input, FindNode), lucks)
  {
    AloneStep(cfg, db.nodes, db.CatalogTables(), Job(node, input, FindNode), lucks);
    if !lucks[0].up { return LookupFailed; }
    if node !in db.nodes { return NodeNotFound; }
    var n := db.nodes[node];
    if !n.active { return NodeInactive; }
    if |input.payload| > MAX_PAYLOAD { return PayloadTooLarge; }
    if n.publicKey != [] {
      if input.signature == "" { return SignatureRequired; }
      var valid := VerifySignature(cfg, n.publicKey, input.payload, input.signature);
      if valid.None? { return SignatureMalformed; }
      if !valid.value { return SignatureInvalid; }
    }
    if |input.embedding| > 0 && cfg.embedDim > 0 {
      if |input.embedding[0]| != cfg.embedDim { return DimensionMismatch; }
    }
    var sig := [];
    if input.signature != "" {
      var decoded := Hex.Decode(input.signature);
      if decoded.None? { return SignatureMalformed; }
      sig := decoded.value;
    }
    a := Store(db, cfg, node, input, sig, lucks[1..]);
  }

  /** The writes of an ingest whose checks passed; only the first decides the answer. */
  method Store(db: Database, cfg: Config, node: string, input: Input, sig: bytes, lucks: seq<Luck>) returns (a: Answer)
    requires |lucks| >= 4
    modifies db`nodes, db`snapshots, db`fts, db`vec
    ensures (db.nodes, db.CatalogTables(), Done(a)) ==
            Alone(cfg, old(db.nodes), old(db.CatalogTables()), Job(node, input, StoreSnapshot(sig)), lucks)
  {
    AloneStep(cfg, db.nodes, db.CatalogTables(), Job(node, input, StoreSnapshot(sig)), lucks);
    var ok := UpsertSnapshot(db, node, input, sig, Unix(lucks[0].now), lucks[0].up);
    if !ok { return StoreFailed; }
    a := UpdateIndexes(db, cfg, node, input, lucks[1..]);
  }

  method UpdateIndexes(db: Database, cfg: Config, node: string, input: Input, lucks: seq<Luck>) returns (a: Answer)
    requires |lucks| >= 3
    modifies db`nodes, db`fts, db`vec
    ensures (db.nodes, db.CatalogTables(), Done(a)) ==
            Alone(cfg, old(db.nodes), old(db.CatalogTables()), Job(node, input, IndexText), lucks)
  {
    AloneStep(cfg, db.nodes, db.CatalogTables(), Job(node, input, IndexText), lucks);
    ReplaceFTS5Row(db, input.candidate, input.payload, lucks[0].up);
    var rest := lucks[1..];
    if |input.embedding| > 0 {
      AloneStep(cfg, db.nodes, db.CatalogTables(), Job(node, input, IndexVector), rest);
      UpsertVec0Embedding(db, input.candidate, input.embedding, rest[0].up);
      rest := rest[1..];
    }
    AloneStep(cfg, db.nodes, db.CatalogTables(), Job(node, input, StampPing), rest);
    if rest[0].up {
      Nodes.UpdateNodePing(db, node, Unix(rest[0].now));
    }
    return Accepted;
  }

  /** One transaction; an index delete that fails is passed over. */
  method RevokeNode(db: Database, node: string, luck: RevokeLuck) returns (ok: bool)
    modifies db`nodes, db`snapshots, db`fts, db`vec
    ensures (db.nodes, db.CatalogTables(), ok) ==
            CatalogMachine.RevokeNode(old(db.nodes), old(db.CatalogTables()), node, luck)
  {
    if !luck.up || node !in db.nodes { return false; }  // rolled back
    ghost var before := db.CatalogTables();
    ghost var all := CandidatesOf(before, node);
    var rest := set k | k in db.snapshots && k.0 == node :: k.1;
    assert rest == all;
    NothingGoneYet(db.fts, all, luck.ftsFailed);
    NothingGoneYet(db.vec, all, luck.vecFailed);
    while rest != {}
      invariant rest <= all
      invariant db.snapshots == before.snapshots && db.nodes == old(db.nodes)
      invariant db.fts == Without(before.fts, all - rest - luck.ftsFailed)
      invariant db.vec == Without(before.vec, all - rest - luck.vecFailed)
      decreases rest
    {
      var candidate :| candidate in rest;
      OneMoreGone(before.fts, all, rest, luck.ftsFailed, candidate);
      OneMoreGone(before.vec, all, rest, luck.vecFailed, candidate);
      if candidate !in luck.ftsFailed { db.fts := Without(db.fts, {candidate}); }
      if candidate !in luck.vecFailed { db.vec := Without(db.vec, {candidate}); }
      rest := rest - {candidate};
    }
    assert all - {} == all;
    db.snapshots := map k | k in db.snapshots && k.0 != node :: db.snapshots[k];
    db.nodes := db.nodes[node := db.nodes[node].(active := false, revokedAt := Some(Unix(luck.now)))];
    return true;
  }

  lemma NothingGoneYet<T>(rows: seq<IndexRow<T>>, all: set<string>, failed: set<string>)
    ensures Without(rows, all - all - failed) == rows
  {
    assert all - all - failed == {};
    CatalogTheorems.WithoutNone(rows);
  }

  lemma OneMoreGone<T>(rows: seq<IndexRow<T>>, all: set<string>, rest: set<string>, failed: set<string>, c: string)
    requires rest <= all && c in rest
    ensures var before := Without(rows, all - rest - failed);
            Without(rows, all - (rest - {c}) - failed) == if c in failed then before else Without(before, {c})
  {
    CatalogTheorems.WithoutTwice(rows, all - rest - failed, {c});
    assert all - (rest - {c}) - failed == if c in failed then all - rest - failed else all - rest - failed + {c};
  }

  datatype TalentProfile = TalentProfile(candidate: string, nodeId: string, endpoint: string, payload: bytes,
                                         signature: string, publicKey: string, ingestedAt: int)

  function Profile(nodes: map<string, Node>, cat: Catalog, key: (string, string)): TalentProfile
    requires key in cat.snapshots && key.0 in nodes
  {
    var snap, node := cat.snapshots[key], nodes[key.0];
    TalentProfile(key.1, key.0, node.endpoint, snap.payload, Hex.Encode(snap.signature), Hex.Encode(node.publicKey),
                  snap.ingestedAt)
  }

  /** Any snapshot of the candidate may answer; the two binary fields are handed out in hexadecimal. */
  method GetTalentProfile(db: Database, candidate: string) returns (p: Option<TalentProfile>)
    ensures p.None? <==> forall n :: (n, candidate) in db.snapshots ==> n !in db.nodes
    ensures p.Some? ==>
              (p.value.nodeId, candidate) in db.snapshots && p.value.nodeId in db.nodes
              && p.value == Profile(db.nodes, db.CatalogTables(), (p.value.nodeId, candidate))
  {
    var matching := set k | k in db.snapshots && k.1 == candidate && k.0 in db.nodes;
    if matching == {} {
      forall n | (n, candidate) in db.snapshots
        ensures n !in db.nodes
      {
        assert (n, candidate) !in matching;
      }
      return None;
    }
    var k :| k in matching;
    return Some(Profile(db.nodes, Catalog(db.snapshots, db.fts, db.vec), k));
  }

  /** Provenance: whatever profile a reachable catalog hands out for a node with a key, its signature
      verifies over the returned payload under the returned key, from the texts alone. */
  lemma ProfileIsVerifiable(cfg: Config, ss: seq<Shelf>, steps: seq<Step>, i: nat, key: (string, string))
    requires IsTrace(cfg, ss, steps) && Initial(ss[0]) && i < |ss| && key in ss[i].cat.snapshots
    ensures key.0 in ss[i].nodes
    ensures var p := Profile(ss[i].nodes, ss[i].cat, key);
            var publicKey := Hex.Decode(p.publicKey);
            && publicKey.Some?
            && (publicKey.value != [] ==>
                  VerifySignature(cfg, publicKey.value, p.payload, p.signature) == Some(true))
  {
    CatalogTheorems.EverySnapshotIsVouched(cfg, ss, steps, i);
    Hex.RoundTrip(ss[i].cat.snapshots[key].signature);
    Hex.RoundTrip(ss[i].nodes[key.0].publicKey);
  }
}
