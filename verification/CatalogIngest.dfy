/** What one whole ingest, or one revocation, answers and leaves in the catalog, told from the input and the rows
    alone. */
module CatalogIngest {
  import opened Basics
  import opened Schema
  import opened CatalogMachine
  import opened CatalogTheorems
  import CatalogService
  import Hex

  // ----- The answer of an ingest -----

  predicate AllUp(lucks: seq<Luck>) {
    forall i :: 0 <= i < |lucks| ==> lucks[i].up
  }

  /** The text is the hexadecimal form of a 64-byte signature that verifies under the 32-byte key. */
  ghost predicate SignsUnder(cfg: Config, key: bytes, payload: bytes, text: string) {
    |key| == 32 && exists sig :: IsSignature(cfg, key, payload, text, sig)
  }

  ghost predicate IsSignature(cfg: Config, key: bytes, payload: bytes, text: string, sig: bytes) {
    |sig| == 64 && Hex.IsHexOf(text, sig) && cfg.verify(key, payload, sig)
  }

  /** Some 64 bytes are what the text spells, under a key of 32 bytes. */
  ghost predicate WellFormed(key: bytes, text: string) {
    |key| == 32 && |text| == 128 && Hex.IsHex(text)
  }

  predicate Fits(cfg: Config, embedding: seq<seq<real>>) {
    |embedding| == 0 || cfg.embedDim <= 0 || |embedding[0]| == cfg.embedDim
  }

  lemma SignatureIs(cfg: Config, key: bytes, payload: bytes, text: string)
    ensures VerifySignature(cfg, key, payload, text).Some? <==> WellFormed(key, text)
    ensures VerifySignature(cfg, key, payload, text) == Some(true) <==> SignsUnder(cfg, key, payload, text)
  {
    Hex.DecodesIff(text);
    var decoded := Hex.Decode(text);
    if decoded.Some? {
      Hex.DecodeIff(text, decoded.value);
    }
    if SignsUnder(cfg, key, payload, text) {
      var sig :| IsSignature(cfg, key, payload, text, sig);
      Hex.DecodeIff(text, sig);
    }
    if VerifySignature(cfg, key, payload, text) == Some(true) {
      assert IsSignature(cfg, key, payload, text, decoded.value);
    }
  }

  /** What the checks of an ingest ask of a node and an input. */
  ghost predicate Acceptable(cfg: Config, n: Node, input: Input) {
    && n.active && |input.payload| <= 1_048_576 && Fits(cfg, input.embedding)
    && if n.publicKey != [] then SignsUnder(cfg, n.publicKey, input.payload, input.signature)
       else Hex.IsHex(input.signature)
  }

  /** The first reason that applies, if the node refuses the input. */
  ghost predicate Refuses(cfg: Config, n: Node, input: Input, a: Answer) {
    var small, keyed := n.active && |input.payload| <= 1_048_576, n.publicKey != [];
    var signed := SignsUnder(cfg, n.publicKey, input.payload, input.signature);
    match a
    case NodeInactive => !n.active
    case PayloadTooLarge => n.active && |input.payload| > 1_048_576
    case SignatureRequired => small && keyed && input.signature == ""
    case SignatureMalformed =>
      small && if keyed then input.signature != "" && !WellFormed(n.publicKey, input.signature)
               else Fits(cfg, input.embedding) && !Hex.IsHex(input.signature)
    case SignatureInvalid => small && keyed && WellFormed(n.publicKey, input.signature) && !signed
    case DimensionMismatch => small && (keyed ==> signed) && !Fits(cfg, input.embedding)
    case _ => false
  }

  lemma KeyedChecks(cfg: Config, n: Node, input: Input)
    requires n.publicKey != []
    ensures var t := CheckInput(cfg, n, input);
            if t.StoreSnapshot? then Acceptable(cfg, n, input) else t.Done? && Refuses(cfg, n, input, t.answer)
  {
    SignatureIs(cfg, n.publicKey, input.payload, input.signature);
    var valid := VerifySignature(cfg, n.publicKey, input.payload, input.signature);
    var t := CheckInput(cfg, n, input);
    if n.active && |input.payload| <= MAX_PAYLOAD && input.signature != "" {
      assert valid == Some(true) ==> t == (if Fits(cfg, input.embedding)
                                           then StoreSnapshot(Hex.Decode(input.signature).value)
                                           else Done(DimensionMismatch));
      assert valid == Some(false) ==> t == Done(SignatureInvalid);
      assert valid == None ==> t == Done(SignatureMalformed);
    }
  }

  lemma KeylessChecks(cfg: Config, n: Node, input: Input)
    requires n.publicKey == []
    ensures var t := CheckInput(cfg, n, input);
            if t.StoreSnapshot? then Acceptable(cfg, n, input) else t.Done? && Refuses(cfg, n, input, t.answer)
  {
    Hex.DecodesIff(input.signature);
  }

  lemma StoredSignature(cfg: Config, n: Node, input: Input)
    ensures var t := CheckInput(cfg, n, input); t.StoreSnapshot? ==> Hex.IsHexOf(input.signature, t.sig)
  {
    if CheckInput(cfg, n, input).StoreSnapshot? {
      Hex.DecodeIff(input.signature, CheckInput(cfg, n, input).sig);
    }
  }

  lemma SignedIsWellFormed(cfg: Config, key: bytes, payload: bytes, text: string)
    requires SignsUnder(cfg, key, payload, text)
    ensures WellFormed(key, text) && text != ""
  {
    var sig :| IsSignature(cfg, key, payload, text, sig);
  }

  /** An input is accepted or refused, and there is one reason at most. */
  lemma OneVerdict(cfg: Config, n: Node, input: Input)
    ensures Acceptable(cfg, n, input) ==> forall a :: !Refuses(cfg, n, input, a)
    ensures forall a, b :: Refuses(cfg, n, input, a) && Refuses(cfg, n, input, b) ==> a == b
  {
    if SignsUnder(cfg, n.publicKey, input.payload, input.signature) {
      SignedIsWellFormed(cfg, n.publicKey, input.payload, input.signature);
    }
  }

  /** Each verdict of the checks is given exactly when its condition holds. */
  lemma ChecksIff(cfg: Config, n: Node, input: Input)
    ensures var t := CheckInput(cfg, n, input);
            && (t.StoreSnapshot? <==> Acceptable(cfg, n, input))
            && (t.StoreSnapshot? ==> Hex.IsHexOf(input.signature, t.sig))
            && (t.StoreSnapshot? || t.Done?)
            && forall a :: t == Done(a) <==> Refuses(cfg, n, input, a)
  {
    if n.publicKey != [] {
      KeyedChecks(cfg, n, input);
    } else {
      KeylessChecks(cfg, n, input);
    }
    StoredSignature(cfg, n, input);
    OneVerdict(cfg, n, input);
  }

  // ----- The writes of an ingest -----

  /** The catalog holds what was pushed: one snapshot, one text row for the candidate, and one vector row more if
      there is an embedding; everything else is as before. */
  ghost predicate Holds(cat: Catalog, cat': Catalog, node: string, input: Input, sig: bytes, at: int) {
    && cat'.snapshots == cat.snapshots[(node, input.candidate) := Snapshot(input.payload, sig, at)]
    && (forall r :: r in cat'.fts <==>
                      r == IndexRow(input.candidate, input.payload) || (r in cat.fts && r.candidate != input.candidate))
    && cat'.vec == (if input.embedding == [] then cat.vec
                    else cat.vec + [IndexRow(input.candidate, input.embedding[0])])
  }

  lemma TextIsReplaced(rows: seq<IndexRow<bytes>>, candidate: string, payload: bytes)
    ensures forall r :: r in Without(rows, {candidate}) + [IndexRow(candidate, payload)] <==>
                          r == IndexRow(candidate, payload) || (r in rows && r.candidate != candidate)
  {
    WithoutRows(rows, {candidate});
  }

  lemma VectorOutcome(cfg: Config, nodes: map<string, Node>, cat: Catalog, job: Job, lucks: seq<Luck>)
    requires |lucks| >= 2 && AllUp(lucks) && job.node in nodes && job.at.IndexVector? && |job.input.embedding| > 0
    ensures Alone(cfg, nodes, cat, job, lucks) ==
            (nodes[job.node := nodes[job.node].(lastPing := Some(Unix(lucks[1].now)))],
             cat.(vec := cat.vec + [IndexRow(job.input.candidate, job.input.embedding[0])]), Done(Accepted))
  {
    AloneStep(cfg, nodes, cat, job, lucks);
    PingOutcome(cfg, nodes, CatalogAfter(cat, job, lucks[0]), job.(at := StampPing), lucks[1..]);
  }

  lemma PingOutcome(cfg: Config, nodes: map<string, Node>, cat: Catalog, job: Job, lucks: seq<Luck>)
    requires |lucks| >= 1 && AllUp(lucks) && job.node in nodes && job.at.StampPing?
    ensures Alone(cfg, nodes, cat, job, lucks) ==
            (nodes[job.node := nodes[job.node].(lastPing := Some(Unix(lucks[0].now)))], cat, Done(Accepted))
  {
    AloneStep(cfg, nodes, cat, job, lucks);
  }

  lemma TextOutcome(cfg: Config, nodes: map<string, Node>, cat: Catalog, job: Job, lucks: seq<Luck>)
    requires |lucks| >= 3 && AllUp(lucks) && job.node in nodes && job.at.IndexText?
    ensures var input, last := job.input, lucks[if job.input.embedding == [] then 1 else 2];
            Alone(cfg, nodes, cat, job, lucks) ==
            (nodes[job.node := nodes[job.node].(lastPing := Some(Unix(last.now)))],
             Catalog(cat.snapshots, Without(cat.fts, {input.candidate}) + [IndexRow(input.candidate, input.payload)],
                     if input.embedding == [] then cat.vec
                     else cat.vec + [IndexRow(input.candidate, input.embedding[0])]),
             Done(Accepted))
  {
    AloneStep(cfg, nodes, cat, job, lucks);
    var cat1 := CatalogAfter(cat, job, lucks[0]);
    if job.input.embedding == [] {
      PingOutcome(cfg, nodes, cat1, job.(at := StampPing), lucks[1..]);
    } else {
      VectorOutcome(cfg, nodes, cat1, job.(at := IndexVector), lucks[1..]);
    }
  }

  lemma StoreOutcome(cfg: Config, nodes: map<string, Node>, cat: Catalog, job: Job, lucks: seq<Luck>)
    requires |lucks| >= 4 && AllUp(lucks) && job.node in nodes && job.at.StoreSnapshot?
    ensures var last := lucks[if job.input.embedding == [] then 2 else 3];
            var (nodes', cat', t) := Alone(cfg, nodes, cat, job, lucks);
            && t == Done(Accepted) && Holds(cat, cat', job.node, job.input, job.at.sig, Unix(lucks[0].now))
            && nodes' == nodes[job.node := nodes[job.node].(lastPing := Some(Unix(last.now)))]
  {
    AloneStep(cfg, nodes, cat, job, lucks);
    TextOutcome(cfg, nodes, CatalogAfter(cat, job, lucks[0]), job.(at := IndexText), lucks[1..]);
    TextIsReplaced(cat.fts, job.input.candidate, job.input.payload);
    assert lucks[1..][1] == lucks[2] && lucks[1..][2] == lucks[3];
  }

  /** An ingest whose statements succeed is accepted exactly if its node is there and active, the payload has at most
      2^20 bytes, the first embedding, if any, has the configured dimension, and the signature is in order: under a
      node's key it must verify, without a key it must be hexadecimal. Then the pushed data are stored and the
      node's ping is stamped; otherwise nothing changes. */
  lemma AcceptedIff(cfg: Config, nodes: map<string, Node>, cat: Catalog, node: string, input: Input, lucks: seq<Luck>)
    requires |lucks| >= 5 && AllUp(lucks)
    ensures var (nodes', cat', t) := Alone(cfg, nodes, cat, Job(node, input, FindNode), lucks);
            && (t == Done(Accepted) <==>
                && node in nodes && nodes[node].active && |input.payload| <= 1_048_576 && Fits(cfg, input.embedding)
                && if nodes[node].publicKey != []
                   then SignsUnder(cfg, nodes[node].publicKey, input.payload, input.signature)
                   else Hex.IsHex(input.signature))
            && (if t == Done(Accepted) then Ingested(nodes, nodes', cat, cat', node, input, lucks)
                else nodes' == nodes && cat' == cat)
  {
    var job := Job(node, input, FindNode);
    AloneStep(cfg, nodes, cat, job, lucks);
    if node in nodes {
      ChecksIff(cfg, nodes[node], input);
      var t := CheckInput(cfg, nodes[node], input);
      if t.StoreSnapshot? {
        StoreOutcome(cfg, nodes, cat, job.(at := t), lucks[1..]);
        assert lucks[1..][0] == lucks[1] && lucks[1..][2] == lucks[3] && lucks[1..][3] == lucks[4];
      }
    }
  }

  /** The pushed data are stored with the bytes of the signature, and the node has been heard of. */
  ghost predicate Ingested(nodes: map<string, Node>, nodes': map<string, Node>, cat: Catalog, cat': Catalog,
                           node: string, input: Input, lucks: seq<Luck>)
    requires |lucks| >= 5
  {
    && node in nodes
    && nodes' == nodes[node :=
         nodes[node].(lastPing := Some(Unix(lucks[if input.embedding == [] then 3 else 4].now)))]
    && (node, input.candidate) in cat'.snapshots
    && Hex.IsHexOf(input.signature, cat'.snapshots[(node, input.candidate)].signature)
    && Holds(cat, cat', node, input, cat'.snapshots[(node, input.candidate)].signature, Unix(lucks[1].now))
  }

  /** Each refusal has its own condition; the first reason that applies is given. */
  lemma RefusedIff(cfg: Config, nodes: map<string, Node>, cat: Catalog, node: string, input: Input, lucks: seq<Luck>,
                   a: Answer)
    requires |lucks| >= 5 && AllUp(lucks) && a != Accepted
    ensures Alone(cfg, nodes, cat, Job(node, input, FindNode), lucks).2 == Done(a) <==>
            if node in nodes then Refuses(cfg, nodes[node], input, a) else a == NodeNotFound
  {
    var job := Job(node, input, FindNode);
    AloneStep(cfg, nodes, cat, job, lucks);
    if node in nodes {
      ChecksIff(cfg, nodes[node], input);
      OneVerdict(cfg, nodes[node], input);
      var t := CheckInput(cfg, nodes[node], input);
      if t.StoreSnapshot? {
        StoreOutcome(cfg, nodes, cat, job.(at := t), lucks[1..]);
      }
    }
  }

  /** What was accepted is what a profile lookup hands out: the pushed payload under the pushed signature, with the
      node's address and key. */
  lemma AcceptedIsServed(cfg: Config, nodes: map<string, Node>, cat: Catalog, node: string, input: Input,
                         lucks: seq<Luck>)
    requires |lucks| >= 5 && AllUp(lucks)
    requires Alone(cfg, nodes, cat, Job(node, input, FindNode), lucks).2 == Done(Accepted)
    ensures var (nodes', cat', _) := Alone(cfg, nodes, cat, Job(node, input, FindNode), lucks);
            && node in nodes && node in nodes' && (node, input.candidate) in cat'.snapshots
            && var p := CatalogService.Profile(nodes', cat', (node, input.candidate));
               && p.candidate == input.candidate && p.nodeId == node && p.payload == input.payload
               && p.endpoint == nodes[node].endpoint && p.ingestedAt == Unix(lucks[1].now)
               && Hex.Decode(p.signature) == Hex.Decode(input.signature)
               && Hex.Decode(p.publicKey) == Some(nodes[node].publicKey)
  {
    AcceptedIff(cfg, nodes, cat, node, input, lucks);
    var (nodes', cat', _) := Alone(cfg, nodes, cat, Job(node, input, FindNode), lucks);
    var sig := cat'.snapshots[(node, input.candidate)].signature;
    Hex.DecodeIff(input.signature, sig);
    Hex.RoundTrip(sig);
    Hex.RoundTrip(nodes[node].publicKey);
  }

  /** A statement of an ingest that fails changes nothing. It ends the ingest if it is the lookup or the snapshot; a
      failing index write or ping is passed over. */
  lemma FailedStatement(cfg: Config, nodes: map<string, Node>, cat: Catalog, job: Job, luck: Luck)
    requires !luck.up && !job.at.Done?
    ensures NodesAfter(nodes, job, luck) == nodes && CatalogAfter(cat, job, luck) == cat
    ensures TaskAfter(cfg, nodes, job, luck) ==
            match job.at
            case FindNode => Done(LookupFailed)
            case StoreSnapshot(_) => Done(StoreFailed)
            case IndexText => if job.input.embedding == [] then StampPing else IndexVector
            case IndexVector => StampPing
            case _ => Done(Accepted)
  {
  }

  /** A run in which a node with a key pushes a signed snapshot, and it is stored. */
  lemma SignedPushIsStored(cfg: Config, s0: Shelf, a: string, input: Input, sig: bytes) returns (s: Shelf)
    requires Initial(s0) && a in s0.nodes && s0.nodes[a].active && |s0.nodes[a].publicKey| == 32
    requires |input.payload| <= 1_048_576 && Fits(cfg, input.embedding)
    requires IsSignature(cfg, s0.nodes[a].publicKey, input.payload, input.signature, sig)
    ensures Reaches(cfg, s0, s) && s.nodes == s0.nodes
    ensures s.cat.snapshots == map[(a, input.candidate) := Snapshot(input.payload, sig, 0)]
  {
    ReachesItself(cfg, s0);
    ChecksIff(cfg, s0.nodes[a], input);
    var t := CheckInput(cfg, s0.nodes[a], input);
    Hex.DecodeIff(input.signature, sig);
    Hex.DecodeIff(input.signature, t.sig);
    var k := Moved(cfg, s0, s0, Begin(a, input));
    var l := Moved(cfg, s0, k, Run(0, Luck(0, true)));
    assert l.jobs[0].at == StoreSnapshot(sig);
    s := Moved(cfg, s0, l, Run(0, Luck(0, true)));
  }

  // ----- A revocation -----

  /** A revocation that commits deactivates the node, takes exactly its snapshots away, and takes from each index the
      rows of the candidates it held, but for those whose delete failed. Rows of all other candidates stay. */
  lemma RevocationOutcome(nodes: map<string, Node>, cat: Catalog, node: string, luck: RevokeLuck)
    ensures var (nodes', cat', ok) := RevokeNode(nodes, cat, node, luck);
            && (ok <==> luck.up && node in nodes)
            && (!ok ==> nodes' == nodes && cat' == cat)
            && (ok ==>
                  && nodes' == nodes[node := nodes[node].(active := false, revokedAt := Some(Unix(luck.now)))]
                  && (forall k :: k in cat'.snapshots <==> k in cat.snapshots && k.0 != node)
                  && (forall k :: k in cat'.snapshots ==> cat'.snapshots[k] == cat.snapshots[k])
                  && (forall r :: r in cat'.fts <==>
                        r in cat.fts && ((node, r.candidate) !in cat.snapshots || r.candidate in luck.ftsFailed))
                  && (forall r :: r in cat'.vec <==>
                        r in cat.vec && ((node, r.candidate) !in cat.snapshots || r.candidate in luck.vecFailed)))
  {
    var (_, cat', ok) := RevokeNode(nodes, cat, node, luck);
    if ok {
      forall r: IndexRow<bytes>
        ensures r in cat'.fts <==>
                r in cat.fts && ((node, r.candidate) !in cat.snapshots || r.candidate in luck.ftsFailed)
      {
        RowLeft(cat, node, cat.fts, luck.ftsFailed, r);
      }
      forall r: IndexRow<seq<real>>
        ensures r in cat'.vec <==>
                r in cat.vec && ((node, r.candidate) !in cat.snapshots || r.candidate in luck.vecFailed)
      {
        RowLeft(cat, node, cat.vec, luck.vecFailed, r);
      }
    }
  }

  lemma RowLeft<T>(cat: Catalog, node: string, rows: seq<IndexRow<T>>, failed: set<string>, r: IndexRow<T>)
    ensures r in Without(rows, CandidatesOf(cat, node) - failed) <==>
            r in rows && ((node, r.candidate) !in cat.snapshots || r.candidate in failed)
  {
    WithoutRows(rows, CandidatesOf(cat, node) - failed);
    assert (node, r.candidate) in cat.snapshots ==> (node, r.candidate).1 in CandidatesOf(cat, node);
  }
}
