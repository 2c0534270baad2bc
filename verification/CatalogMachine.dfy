/** Snapshots and their two search indexes, as a state machine over ingests and node revocations.

    Requests run concurrently, so a step is a single database statement (or transaction): an ingest looks its
    node up, stores the snapshot, replaces the text row, adds the vector row and stamps the node, and other
    requests may run in between. */
module CatalogMachine {
  import opened Basics
  import opened Schema
  import opened Nodes
  import Hex

  const MAX_PAYLOAD: nat := 0x10_0000
  const KEY_SIZE: nat := 32
  const SIGNATURE_SIZE: nat := 64

  // `verify` is the signature check over key, message and signature; nothing is assumed about it.
  datatype Config = Config(verify: (bytes, bytes, bytes) -> bool, embedDim: int)

  datatype Input = Input(candidate: string, payload: bytes, embedding: seq<seq<real>>, signature: string)

  // The clock of one statement, and whether it succeeds.
  datatype Luck = Luck(now: int, up: bool)

  datatype Answer =
    | Accepted
    | LookupFailed
    | NodeNotFound
    | NodeInactive
    | PayloadTooLarge
    | SignatureRequired
    | SignatureMalformed
    | SignatureInvalid
    | DimensionMismatch
    | StoreFailed

  // What an ingest does next.
  datatype Task = FindNode | StoreSnapshot(sig: bytes) | IndexText | IndexVector | StampPing | Done(answer: Answer)

  datatype Job = Job(node: string, input: Input, at: Task)

  // The transaction of a revocation may fail as a whole; the errors of its index deletes are ignored one by
  // one, and these are the candidates whose delete fails.
  datatype RevokeLuck = RevokeLuck(now: int, up: bool, ftsFailed: set<string>, vecFailed: set<string>)

  /** An ed25519 check: none when the key or the signature is malformed. */
  function VerifySignature(cfg: Config, key: bytes, message: bytes, sigHex: string): Option<bool> {
    if |key| != KEY_SIZE then None else
    match Hex.Decode(sigHex)
    case None => None
    case Some(sig) => if |sig| != SIGNATURE_SIZE then None else Some(cfg.verify(key, message, sig))
  }

  /** The rows whose candidate is not among `gone`, in order. */
  function Without<T>(rows: seq<IndexRow<T>>, gone: set<string>): seq<IndexRow<T>> {
    if rows == [] then []
    else if rows[0].candidate in gone then Without(rows[1..], gone)
    else [rows[0]] + Without(rows[1..], gone)
  }

  function WithSnapshot(snapshots: map<(string, string), Snapshot>, node: string, input: Input, sig: bytes, now: int)
    : map<(string, string), Snapshot>
  {
    snapshots[(node, input.candidate) := Snapshot(input.payload, sig, now)]
  }

  /** The checks of an ingest, which depend on the row its lookup read. */
  function CheckInput(cfg: Config, n: Node, input: Input): Task {
    if !n.active then Done(NodeInactive)
    else if |input.payload| > MAX_PAYLOAD then Done(PayloadTooLarge)
    else if n.publicKey != [] && input.signature == "" then Done(SignatureRequired)
    else
      var valid := VerifySignature(cfg, n.publicKey, input.payload, input.signature);
      if n.publicKey != [] && valid.None? then Done(SignatureMalformed)
      else if n.publicKey != [] && !valid.value then Done(SignatureInvalid)
      else if |input.embedding| > 0 && cfg.embedDim > 0 && |input.embedding[0]| != cfg.embedDim
      then Done(DimensionMismatch)
      else if Hex.Decode(input.signature).None? then Done(SignatureMalformed)
      else StoreSnapshot(Hex.Decode(input.signature).value)
  }

  /** What the ingest does after its next statement. */
  function TaskAfter(cfg: Config, nodes: map<string, Node>, job: Job, luck: Luck): Task {
    match job.at
    case FindNode =>
      if !luck.up then Done(LookupFailed)
      else if job.node !in nodes then Done(NodeNotFound)
      else CheckInput(cfg, nodes[job.node], job.input)
    case StoreSnapshot(_) => if luck.up then IndexText else Done(StoreFailed)
    case IndexText => if |job.input.embedding| > 0 then IndexVector else StampPing
    case IndexVector => StampPing
    case StampPing => Done(Accepted)
    case Done(_) => job.at
  }

  function NodesAfter(nodes: map<string, Node>, job: Job, luck: Luck): map<string, Node> {
    if job.at.StampPing? && luck.up then WithPing(nodes, job.node, Unix(luck.now)) else nodes
  }

  /** Storing the snapshot must succeed; the index writes may fail and are then passed over. */
  function CatalogAfter(cat: Catalog, job: Job, luck: Luck): Catalog {
    var input := job.input;
    if !luck.up then cat else
    match job.at
    case StoreSnapshot(sig) => cat.(snapshots := WithSnapshot(cat.snapshots, job.node, input, sig, Unix(luck.now)))
    case IndexText =>
      cat.(fts := Without(cat.fts, {input.candidate}) + [IndexRow(input.candidate, input.payload)])
    case IndexVector =>
      if |input.embedding| > 0 then cat.(vec := cat.vec + [IndexRow(input.candidate, input.embedding[0])]) else cat
    case _ => cat
  }

  /** An ingest that is not interrupted. */
  function Alone(cfg: Config, nodes: map<string, Node>, cat: Catalog, job: Job, lucks: seq<Luck>)
    : (map<string, Node>, Catalog, Task)
    decreases |lucks|
  {
    if job.at.Done? || lucks == [] then (nodes, cat, job.at) else
    Alone(cfg, NodesAfter(nodes, job, lucks[0]), CatalogAfter(cat, job, lucks[0]),
          job.(at := TaskAfter(cfg, nodes, job, lucks[0])), lucks[1..])
  }

  lemma AloneStep(cfg: Config, nodes: map<string, Node>, cat: Catalog, job: Job, lucks: seq<Luck>)
    requires !job.at.Done? && |lucks| > 0
    ensures var nodes', cat', t := NodesAfter(nodes, job, lucks[0]), CatalogAfter(cat, job, lucks[0]),
                                   TaskAfter(cfg, nodes, job, lucks[0]);
            Alone(cfg, nodes, cat, job, lucks) ==
            if t.Done? then (nodes', cat', t) else Alone(cfg, nodes', cat', job.(at := t), lucks[1..])
  {
  }

  function CandidatesOf(cat: Catalog, node: string): set<string> {
    set k | k in cat.snapshots && k.0 == node :: k.1
  }

  function Dropped(cat: Catalog, node: string, luck: RevokeLuck): Catalog {
    var gone := CandidatesOf(cat, node);
    Catalog(map k | k in cat.snapshots && k.0 != node :: cat.snapshots[k],
            Without(cat.fts, gone - luck.ftsFailed), Without(cat.vec, gone - luck.vecFailed))
  }

  function RevokeNode(nodes: map<string, Node>, cat: Catalog, node: string, luck: RevokeLuck)
    : (map<string, Node>, Catalog, bool)
  {
    if !luck.up || node !in nodes then (nodes, cat, false)
    else (Deactivated(nodes, node, Unix(luck.now)), Dropped(cat, node, luck), true)
  }

  // ----- The machine -----

  datatype Shelf = Shelf(nodes: map<string, Node>, cat: Catalog, jobs: seq<Job>)

  // `Elsewhere` is any step of the other services on the node table.
  datatype Step =
    | Begin(node: string, input: Input)
    | Run(job: nat, luck: Luck)
    | Revoke(node: string, revoke: RevokeLuck)
    | Elsewhere(nodes: map<string, Node>)

  /** No node disappears, and none changes its key or its standing. */
  predicate NodesEvolve(nodes: map<string, Node>, nodes': map<string, Node>) {
    forall n :: n in nodes ==>
                  n in nodes' && nodes'[n].active == nodes[n].active && nodes'[n].publicKey == nodes[n].publicKey
  }

  predicate Enabled(s: Shelf, step: Step) {
    match step
    case Run(i, _) => i < |s.jobs| && !s.jobs[i].at.Done?
    case Elsewhere(nodes) => NodesEvolve(s.nodes, nodes)
    case _ => true
  }

  function Next(cfg: Config, s: Shelf, step: Step): Shelf
    requires Enabled(s, step)
  {
    match step
    case Begin(node, input) => s.(jobs := s.jobs + [Job(node, input, FindNode)])
    case Run(i, luck) =>
      var job := s.jobs[i];
      Shelf(NodesAfter(s.nodes, job, luck), CatalogAfter(s.cat, job, luck),
            s.jobs[i := job.(at := TaskAfter(cfg, s.nodes, job, luck))])
    case Revoke(node, luck) =>
      var (nodes, cat, _) := RevokeNode(s.nodes, s.cat, node, luck);
      Shelf(nodes, cat, s.jobs)
    case Elsewhere(nodes) => s.(nodes := nodes)
  }

  ghost predicate IsTrace(cfg: Config, ss: seq<Shelf>, steps: seq<Step>) {
    && |ss| == |steps| + 1
    && forall i :: 0 <= i < |steps| ==> StepAt(cfg, ss, steps, i)
  }

  ghost predicate StepAt(cfg: Config, ss: seq<Shelf>, steps: seq<Step>, i: int)
    requires 0 <= i < |steps| < |ss|
  {
    Enabled(ss[i], steps[i]) && ss[i + 1] == Next(cfg, ss[i], steps[i])
  }

  ghost predicate Initial(s: Shelf) {
    s.cat == Catalog(map[], [], []) && s.jobs == []
  }

  /** The step revokes the node and its transaction commits. */
  predicate Revokes(s: Shelf, step: Step, node: string) {
    step.Revoke? && step.node == node && step.revoke.up && node in s.nodes
  }

  /** The full-text deletes of a revocation succeed. */
  predicate FtsDeletesSucceed(step: Step) {
    step.Revoke? ==> step.revoke.ftsFailed == {}
  }

  /** The vector deletes of a revocation succeed; without the vector extension they never do. */
  predicate VecDeletesSucceed(step: Step) {
    step.Revoke? ==> step.revoke.vecFailed == {}
  }

  /** Every write to the full-text index succeeds. */
  predicate FtsWritesSucceed(s: Shelf, step: Step) {
    FtsDeletesSucceed(step) && (step.Run? && step.job < |s.jobs| && s.jobs[step.job].at.IndexText? ==> step.luck.up)
  }

  /** The ingest has passed its checks and has index writes to come. */
  predicate Writing(job: Job) {
    job.at.StoreSnapshot? || job.at.IndexText? || job.at.IndexVector?
  }

  /** The step revokes no node with an ingest under way. */
  predicate RevokesApart(s: Shelf, step: Step) {
    step.Revoke? ==> forall i :: 0 <= i < |s.jobs| && Writing(s.jobs[i]) ==> s.jobs[i].node != step.node
  }

  /** The step stores no snapshot over one that another ingest is about to index. */
  predicate StoresApart(s: Shelf, step: Step) {
    step.Run? && step.job < |s.jobs| && s.jobs[step.job].at.StoreSnapshot? ==>
      forall i :: 0 <= i < |s.jobs| && s.jobs[i].at.IndexText? ==>
                    s.jobs[i].node != s.jobs[step.job].node
                    || s.jobs[i].input.candidate != s.jobs[step.job].input.candidate
  }

  // ----- Soundness of the catalog -----

  /** A node without a key accepts anything; otherwise the signature verifies under the key. */
  predicate Signed(cfg: Config, key: bytes, snap: Snapshot) {
    || key == []
    || (&& |key| == KEY_SIZE && |snap.signature| == SIGNATURE_SIZE
        && cfg.verify(key, snap.payload, snap.signature))
  }

  /** Every snapshot verifies under the key of its node. */
  ghost predicate SnapshotsAreVouched(cfg: Config, s: Shelf) {
    forall k :: k in s.cat.snapshots ==>
                  k.0 in s.nodes && Signed(cfg, s.nodes[k.0].publicKey, s.cat.snapshots[k])
  }

  predicate OwnersAreActive(s: Shelf) {
    forall k :: k in s.cat.snapshots ==> k.0 in s.nodes && s.nodes[k.0].active
  }

  // ----- Freshness of the full-text index -----

  predicate OneRowEach<T>(rows: seq<IndexRow<T>>) {
    forall i, j :: 0 <= i < j < |rows| ==> rows[i].candidate != rows[j].candidate
  }

  /** Some snapshot of the candidate has this payload. */
  ghost predicate IsPayload(cat: Catalog, candidate: string, payload: bytes) {
    exists n :: (n, candidate) in cat.snapshots && cat.snapshots[(n, candidate)].payload == payload
  }

  ghost predicate Indexed(cat: Catalog, candidate: string) {
    exists i :: 0 <= i < |cat.fts| && cat.fts[i].candidate == candidate
  }

  /** Some ingest has stored a snapshot of the candidate and not yet indexed its text. */
  ghost predicate Unindexed(s: Shelf, candidate: string) {
    exists i :: 0 <= i < |s.jobs| && s.jobs[i].at.IndexText? && s.jobs[i].input.candidate == candidate
  }

  /** The text row of a candidate holds the payload of a stored snapshot, unless an ingest is about to
      replace it. */
  ghost predicate Fresh(s: Shelf) {
    forall i :: 0 <= i < |s.cat.fts| ==>
                  IsPayload(s.cat, s.cat.fts[i].candidate, s.cat.fts[i].data) || Unindexed(s, s.cat.fts[i].candidate)
  }

  /** Every candidate with a snapshot can be found, or is about to be indexed. */
  ghost predicate Covered(s: Shelf) {
    forall k :: k in s.cat.snapshots ==> Indexed(s.cat, k.1) || Unindexed(s, k.1)
  }
}
