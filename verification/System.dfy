/** The whole server: sign-in and provisioning, the snapshot catalog and the delivery worker over one
    database, statement by statement and in any interleaving. Each step of the whole is a step of each
    machine, so the theorems of the three machines hold here; this module adds those that span them. */
module System {
  import opened Basics
  import opened Schema
  import opened Nodes
  import G = GrantMachine
  import GT = GrantTheorems
  import GA = GrantAnswers
  import GK = GrantKeys
  import GO = GrantOverlap
  import GP = GrantPolls
  import C = CatalogMachine
  import CT = CatalogTheorems
  import Q = OutboxMachine

  datatype Config = Config(grants: G.Config, catalog: C.Config, outbox: Q.Config)

  // The node table is part of `grants`; the clock is that of `queue`. `aim` is the target the worker has
  // looked up for the row it is about to post.
  datatype World = World(grants: Grants, requests: seq<G.Job>, catalog: Catalog, ingests: seq<C.Job>,
                         queue: Q.Queue, aim: Option<Option<DeliveryTarget>>)

  datatype Step =
    | Auth(step: G.Step)
    | BeginIngest(node: string, input: C.Input)
    | RunIngest(job: nat, luck: C.Luck)
    | RevokeNode(node: string, revoke: C.RevokeLuck)
    | Aim(target: Option<DeliveryTarget>)
    | Outbox(queueStep: Q.Step)

  function SiteOf(w: World): G.Site {
    G.Site(w.grants, w.queue.clock, w.requests)
  }

  function ShelfOf(w: World): C.Shelf {
    C.Shelf(w.grants.nodes, w.catalog, w.ingests)
  }

  function QueueEnd(w: World, step: Q.Step): int {
    match step
    case Tick(now) => now
    case Submit(_, _, now) => now
    case Load(now, _) => now
    case Attempt(_, luck) => luck.end
    case Abandon => w.queue.clock
  }

  /** The step as the sign-in service sees it. */
  function AsGrantStep(w: World, s: Step): G.Step {
    match s
    case Auth(step) => step
    case BeginIngest(_, _) => G.Tick(w.queue.clock)
    case RunIngest(i, luck) =>
      if i < |w.ingests| && w.ingests[i].at.StampPing? && luck.up then G.Ping(w.ingests[i].node, luck.now)
      else G.Tick(luck.now)
    case RevokeNode(node, luck) =>
      if luck.up && node in w.grants.nodes then G.Revoke(node, luck.now) else G.Tick(luck.now)
    case Aim(_) => G.Tick(w.queue.clock)
    case Outbox(step) => G.Tick(QueueEnd(w, step))
  }

  /** The step as the delivery worker sees it. */
  function AsQueueStep(w: World, s: Step): Q.Step {
    match s
    case Auth(step) => Q.Tick(G.Time(SiteOf(w), step))
    case BeginIngest(_, _) => Q.Tick(w.queue.clock)
    case RunIngest(_, luck) => Q.Tick(luck.now)
    case RevokeNode(_, luck) => Q.Tick(luck.now)
    case Aim(_) => Q.Tick(w.queue.clock)
    case Outbox(step) => step
  }

  /** The step as the catalog sees it. */
  ghost function AsCatalogStep(cfg: Config, w: World, s: Step): C.Step {
    match s
    case Auth(step) =>
      C.Elsewhere(if G.Enabled(SiteOf(w), step) then G.Next(cfg.grants, SiteOf(w), step).g.nodes else w.grants.nodes)
    case BeginIngest(node, input) => C.Begin(node, input)
    case RunIngest(i, luck) => C.Run(i, luck)
    case RevokeNode(node, luck) => C.Revoke(node, luck)
    case Aim(_) => C.Elsewhere(w.grants.nodes)
    case Outbox(_) => C.Elsewhere(w.grants.nodes)
  }

  /** A POST goes to the target looked up before. */
  ghost predicate Enabled(cfg: Config, w: World, s: Step)
    requires Q.Ready(cfg.outbox)
  {
    match s
    case Auth(step) => !step.Revoke? && !step.Ping? && G.Enabled(SiteOf(w), step)
    case BeginIngest(_, _) => true
    case RunIngest(i, luck) => w.queue.clock <= luck.now && C.Enabled(ShelfOf(w), C.Run(i, luck))
    case RevokeNode(_, luck) => w.queue.clock <= luck.now
    case Aim(target) =>
      |w.queue.batch| > 0 && IsDeliveryTarget(w.grants.nodes, w.queue.batch[0].row.nodeId, target)
    case Outbox(step) =>
      && Q.Enabled(cfg.outbox, w.queue, step)
      && (step.Attempt? && step.luck.resolved ==> w.aim == Some(step.target))
  }

  ghost function Next(cfg: Config, w: World, s: Step): World
    requires Q.Ready(cfg.outbox) && Enabled(cfg, w, s)
  {
    match s
    case Auth(step) =>
      var site := G.Next(cfg.grants, SiteOf(w), step);
      w.(grants := site.g, requests := site.jobs, queue := w.queue.(clock := site.clock))
    case BeginIngest(node, input) => w.(ingests := w.ingests + [C.Job(node, input, C.FindNode)])
    case RunIngest(i, luck) =>
      var shelf := C.Next(cfg.catalog, ShelfOf(w), C.Run(i, luck));
      w.(grants := w.grants.(nodes := shelf.nodes), catalog := shelf.cat, ingests := shelf.jobs,
      queue := w.queue.(clock := luck.now))
    case RevokeNode(node, luck) =>
      var (nodes, cat, _) := C.RevokeNode(w.grants.nodes, w.catalog, node, luck);
      w.(grants := w.grants.(nodes := nodes), catalog := cat, queue := w.queue.(clock := luck.now))
    case Aim(target) => w.(aim := Some(target))
    case Outbox(step) =>
      w.(queue := Q.Next(cfg.outbox, w.queue, step), aim := if step.Tick? || step.Submit? then w.aim else None)
  }

  ghost predicate IsTrace(cfg: Config, ws: seq<World>, steps: seq<Step>)
    requires Q.Ready(cfg.outbox)
  {
    && |ws| == |steps| + 1
    && forall i :: 0 <= i < |steps| ==> StepAt(cfg, ws, steps, i)
  }

  ghost predicate StepAt(cfg: Config, ws: seq<World>, steps: seq<Step>, i: int)
    requires Q.Ready(cfg.outbox) && 0 <= i < |steps| < |ws|
  {
    Enabled(cfg, ws[i], steps[i]) && ws[i + 1] == Next(cfg, ws[i], steps[i])
  }

  ghost predicate Initial(w: World) {
    G.Initial(SiteOf(w)) && C.Initial(ShelfOf(w)) && Q.Initial(w.queue) && w.aim.None?
  }

  // ----- Each step of the whole is a step of each machine -----

  lemma StepIsGrantStep(cfg: Config, w: World, s: Step)
    requires Q.Ready(cfg.outbox) && Enabled(cfg, w, s)
    ensures G.Enabled(SiteOf(w), AsGrantStep(w, s))
    ensures SiteOf(Next(cfg, w, s)) == G.Next(cfg.grants, SiteOf(w), AsGrantStep(w, s))
  {
  }

  lemma StepIsQueueStep(cfg: Config, w: World, s: Step)
    requires Q.Ready(cfg.outbox) && Enabled(cfg, w, s)
    ensures Q.Enabled(cfg.outbox, w.queue, AsQueueStep(w, s))
    ensures Next(cfg, w, s).queue == Q.Next(cfg.outbox, w.queue, AsQueueStep(w, s))
  {
  }

  /** A sign-in statement writes no key and no standing. */
  predicate KeepsStanding(g: Grants, c: G.Change) {
    c.PutNode? && c.id in g.nodes ==>
      c.node.active == g.nodes[c.id].active && c.node.publicKey == g.nodes[c.id].publicKey
  }

  lemma StatementKeepsStanding(cfg: G.Config, g: Grants, t: G.Task, luck: G.Luck)
    ensures KeepsStanding(g, G.Statement(cfg, g, t, luck).0)
  {
    if !G.Provisions(t) && !t.AddDeviceNode? {
      GO.NodesStay(cfg, g, t, luck);
    }
  }

  lemma AuthIsElsewhere(cfg: Config, w: World, step: G.Step)
    requires Q.Ready(cfg.outbox) && Enabled(cfg, w, Auth(step))
    ensures C.Enabled(ShelfOf(w), AsCatalogStep(cfg, w, Auth(step)))
    ensures ShelfOf(Next(cfg, w, Auth(step))) == C.Next(cfg.catalog, ShelfOf(w), AsCatalogStep(cfg, w, Auth(step)))
  {
    if step.Run? {
      StatementKeepsStanding(cfg.grants, w.grants, w.requests[step.job].at, step.luck);
    }
  }

  lemma StepIsCatalogStep(cfg: Config, w: World, s: Step)
    requires Q.Ready(cfg.outbox) && Enabled(cfg, w, s)
    ensures C.Enabled(ShelfOf(w), AsCatalogStep(cfg, w, s))
    ensures ShelfOf(Next(cfg, w, s)) == C.Next(cfg.catalog, ShelfOf(w), AsCatalogStep(cfg, w, s))
  {
    if s.Auth? {
      AuthIsElsewhere(cfg, w, s.step);
    }
  }

  /** A run of the server, seen by each of its parts, is a run of that part. */
  lemma Projections(cfg: Config, ws: seq<World>, steps: seq<Step>)
    returns (sites: seq<G.Site>, grantSteps: seq<G.Step>, shelves: seq<C.Shelf>, catalogSteps: seq<C.Step>,
             queues: seq<Q.Queue>, queueSteps: seq<Q.Step>)
    requires Q.Ready(cfg.outbox) && IsTrace(cfg, ws, steps)
    ensures |sites| == |shelves| == |queues| == |ws|
    ensures |grantSteps| == |catalogSteps| == |queueSteps| == |steps|
    ensures forall i :: 0 <= i < |ws| ==>
              sites[i] == SiteOf(ws[i]) && shelves[i] == ShelfOf(ws[i]) && queues[i] == ws[i].queue
    ensures forall i :: 0 <= i < |steps| ==>
              && grantSteps[i] == AsGrantStep(ws[i], steps[i])
              && catalogSteps[i] == AsCatalogStep(cfg, ws[i], steps[i])
              && queueSteps[i] == AsQueueStep(ws[i], steps[i])
    ensures G.IsTrace(cfg.grants, sites, grantSteps)
    ensures C.IsTrace(cfg.catalog, shelves, catalogSteps)
    ensures Q.IsTrace(cfg.outbox, queues, queueSteps)
  {
    sites := seq(|ws|, i requires 0 <= i < |ws| => SiteOf(ws[i]));
    shelves := seq(|ws|, i requires 0 <= i < |ws| => ShelfOf(ws[i]));
    queues := seq(|ws|, i requires 0 <= i < |ws| => ws[i].queue);
    grantSteps := seq(|steps|, i requires 0 <= i < |steps| => AsGrantStep(ws[i], steps[i]));
    catalogSteps := seq(|steps|, i requires 0 <= i < |steps| => AsCatalogStep(cfg, ws[i], steps[i]));
    queueSteps := seq(|steps|, i requires 0 <= i < |steps| => AsQueueStep(ws[i], steps[i]));
    forall i | 0 <= i < |steps|
      ensures G.StepAt(cfg.grants, sites, grantSteps, i)
    {
      assert StepAt(cfg, ws, steps, i);
      StepIsGrantStep(cfg, ws[i], steps[i]);
    }
    forall i | 0 <= i < |steps|
      ensures C.StepAt(cfg.catalog, shelves, catalogSteps, i)
    {
      assert StepAt(cfg, ws, steps, i);
      StepIsCatalogStep(cfg, ws[i], steps[i]);
    }
    forall i | 0 <= i < |steps|
      ensures Q.StepAt(cfg.outbox, queues, queueSteps, i)
    {
      assert StepAt(cfg, ws, steps, i);
      StepIsQueueStep(cfg, ws[i], steps[i]);
    }
  }

  // ----- Theorems about the whole -----

  /** The step posts to a target. */
  predicate PostsTo(s: Step, t: DeliveryTarget) {
    s.Outbox? && s.queueStep.Attempt? && Q.Posts(s.queueStep.target, s.queueStep.luck) && s.queueStep.target == Some(t)
  }

  /** The lookup behind the target the worker holds. */
  lemma {:induction false} AimHistory(cfg: Config, ws: seq<World>, steps: seq<Step>, j: nat) returns (k: nat)
    requires Q.Ready(cfg.outbox) && IsTrace(cfg, ws, steps) && ws[0].aim.None? && j < |ws| && ws[j].aim.Some?
    ensures k < j && steps[k] == Aim(ws[j].aim.value) && ws[k].queue.batch == ws[j].queue.batch
    ensures |ws[k].queue.batch| > 0
    ensures IsDeliveryTarget(ws[k].grants.nodes, ws[k].queue.batch[0].row.nodeId, ws[j].aim.value)
  {
    assert StepAt(cfg, ws, steps, j - 1);
    if steps[j - 1].Aim? {
      k := j - 1;
    } else {
      k := AimHistory(cfg, ws, steps, j - 1);
    }
  }

  /** The lookup of a POST. */
  lemma PostHistory(cfg: Config, ws: seq<World>, steps: seq<Step>, j: nat, t: DeliveryTarget) returns (k: nat)
    requires Q.Ready(cfg.outbox) && IsTrace(cfg, ws, steps) && ws[0].aim.None? && j < |steps| && PostsTo(steps[j], t)
    ensures k < j && steps[k] == Aim(Some(t)) && ws[k].queue.batch == ws[j].queue.batch && |ws[j].queue.batch| > 0
    ensures IsDeliveryTarget(ws[k].grants.nodes, ws[j].queue.batch[0].row.nodeId, Some(t))
  {
    assert StepAt(cfg, ws, steps, j);
    k := AimHistory(cfg, ws, steps, j);
  }

  /** Step `i` ends a poll for session `h` with the secret of node `n`, and no other request is on its way to
      provision that node. */
  ghost predicate HandsOut(cfg: Config, ws: seq<World>, steps: seq<Step>, i: nat, h: string, n: string, secret: string)
    requires i < |steps| < |ws|
  {
    && steps[i].Auth? && steps[i].step.Run? && steps[i].step.job < |ws[i].requests|
    && steps[i].step.job < |ws[i + 1].requests|
    && var was, job := ws[i].requests[steps[i].step.job], ws[i + 1].requests[steps[i].step.job];
       && was.at.SetSecret? && was.at.h == h && GP.GrantedTo(cfg.grants, job, h)
       && job.at.answer.nodeId == Some(n) && job.at.answer.introSecret == Some(secret)
       && GO.NoneCommitted(SiteOf(ws[i + 1]), h)
  }

  /** What a POST is signed with. */
  lemma PostIsSigned(cfg: Config, ws: seq<World>, steps: seq<Step>, j: nat, t: DeliveryTarget)
    requires Q.Ready(cfg.outbox) && IsTrace(cfg, ws, steps) && j < |steps| && PostsTo(steps[j], t)
    ensures |ws[j].queue.batch| > 0
    ensures var id := ws[j].queue.batch[0].id;
            var posts := Q.Sent(ws[j + 1].queue.sent, id);
            && |posts| > 0 && posts[..|posts| - 1] == Q.Sent(ws[j].queue.sent, id)
            && posts[|posts| - 1].target == t
            && posts[|posts| - 1].signature == cfg.outbox.hmac(t.secret, posts[|posts| - 1].body)
  {
    assert StepAt(cfg, ws, steps, j);
  }

  /** Secret agreement: when a poll has handed out a node's secret and no other request is on its way to
      provision that node, every POST to the node whose target was looked up later carries the digest of
      exactly the posted body under exactly that secret. `k` is the lookup. */
  lemma SecretAgreement(cfg: Config, ws: seq<World>, steps: seq<Step>, i: nat, j: nat, h: string, n: string,
                        secret: string, t: DeliveryTarget)
    returns (k: nat)
    requires Q.Ready(cfg.outbox) && IsTrace(cfg, ws, steps) && Initial(ws[0]) && i < |steps| && j < |steps|
    requires HandsOut(cfg, ws, steps, i, h, n, secret) && PostsTo(steps[j], t) && t.nodeId == n
    ensures k < j && steps[k] == Aim(Some(t))
    ensures |ws[j].queue.batch| > 0
    ensures var id := ws[j].queue.batch[0].id;
            var posts := Q.Sent(ws[j + 1].queue.sent, id);
            && |posts| > 0 && posts[..|posts| - 1] == Q.Sent(ws[j].queue.sent, id)
            && posts[|posts| - 1].target == t
            && (i < k ==> posts[|posts| - 1].signature == cfg.outbox.hmac(secret, posts[|posts| - 1].body))
  {
    k := PostHistory(cfg, ws, steps, j, t);
    PostIsSigned(cfg, ws, steps, j, t);
    if i < k {
      var sites, grantSteps, _, _, _, _ := Projections(cfg, ws, steps);
      assert grantSteps[i] == steps[i].step && sites[i] == SiteOf(ws[i]) && sites[i + 1] == SiteOf(ws[i + 1]);
      GT.InitialIsOk(cfg.grants, sites[0]);
      GO.HandedOutSecretStays(cfg.grants, sites, grantSteps, i, k, h, n, secret);
      assert sites[k] == SiteOf(ws[k]);
    }
  }

  /** A revoked node is never looked up as a delivery target again, and holds no snapshot again unless an
      ingest of it was about to store one. */
  lemma RevokedNodeGetsNoPost(cfg: Config, ws: seq<World>, steps: seq<Step>, i: nat, j: nat, t: DeliveryTarget)
    returns (k: nat)
    requires Q.Ready(cfg.outbox) && IsTrace(cfg, ws, steps) && ws[0].aim.None? && i < |steps| && j < |steps|
    requires steps[i].RevokeNode? && steps[i].revoke.up && steps[i].node in ws[i].grants.nodes
    requires PostsTo(steps[j], t)
    ensures k < j && steps[k] == Aim(Some(t)) && (i < k ==> t.nodeId != steps[i].node)
    ensures i < j && !CT.AboutToStore(ShelfOf(ws[i]), steps[i].node) ==>
              forall key :: key in ws[j].catalog.snapshots ==> key.0 != steps[i].node
  {
    k := PostHistory(cfg, ws, steps, j, t);
    var _, _, shelves, catalogSteps, _, _ := Projections(cfg, ws, steps);
    assert catalogSteps[i] == C.Revoke(steps[i].node, steps[i].revoke) && shelves[i] == ShelfOf(ws[i]);
    if i < k {
      InactiveStays(cfg, ws, steps, i, k);
    }
    if i < j && !CT.AboutToStore(ShelfOf(ws[i]), steps[i].node) {
      CT.RevocationIsFinal(cfg.catalog, shelves, catalogSteps, i, j, steps[i].node);
      assert shelves[j] == ShelfOf(ws[j]);
    }
  }

  lemma {:induction false} InactiveStays(cfg: Config, ws: seq<World>, steps: seq<Step>, i: nat, k: nat)
    requires Q.Ready(cfg.outbox) && IsTrace(cfg, ws, steps) && i < k < |ws|
    requires steps[i].RevokeNode? && steps[i].revoke.up && steps[i].node in ws[i].grants.nodes
    ensures steps[i].node in ws[k].grants.nodes && !ws[k].grants.nodes[steps[i].node].active
  {
    assert StepAt(cfg, ws, steps, k - 1);
    if i + 1 < k {
      InactiveStays(cfg, ws, steps, i, k - 1);
      StepIsCatalogStep(cfg, ws[k - 1], steps[k - 1]);
      InactiveStep(cfg.catalog, ShelfOf(ws[k - 1]), AsCatalogStep(cfg, ws[k - 1], steps[k - 1]), steps[i].node);
    }
  }

  lemma InactiveStep(cfg: C.Config, s: C.Shelf, step: C.Step, n: string)
    requires C.Enabled(s, step) && n in s.nodes && !s.nodes[n].active
    ensures n in C.Next(cfg, s, step).nodes && !C.Next(cfg, s, step).nodes[n].active
  {
  }

  /** Introductions go to their owner: the node that receives a POST belongs to the user who owns the
      node whose snapshot was asked about, and who approved the device session of each. */
  lemma PostsGoToTheOwner(cfg: Config, ws: seq<World>, steps: seq<Step>, j: nat, t: DeliveryTarget)
    returns (user: string, from: string, to: string)
    requires Q.Ready(cfg.outbox) && IsTrace(cfg, ws, steps) && Initial(ws[0]) && j < |steps| && PostsTo(steps[j], t)
    ensures |ws[j].queue.batch| > 0
    ensures var g, source := ws[j].grants, ws[j].queue.batch[0].row.nodeId;
            && source in g.nodes && t.nodeId in g.nodes
            && g.nodes[source].userId == g.nodes[t.nodeId].userId == Some(user)
            && from in g.sessions && g.sessions[from].nodeId == Some(source) && g.sessions[from].userId == Some(user)
            && to in g.sessions && g.sessions[to].nodeId == Some(t.nodeId) && g.sessions[to].userId == Some(user)
  {
    var k := PostHistory(cfg, ws, steps, j, t);
    var sites, grantSteps, _, _, _, _ := Projections(cfg, ws, steps);
    var source := ws[j].queue.batch[0].row.nodeId;
    assert sites[k] == SiteOf(ws[k]) && sites[j] == SiteOf(ws[j]);
    GT.InitialIsOk(cfg.grants, sites[0]);
    GT.OwnerWrittenOnce(cfg.grants, sites, grantSteps, k, j, source);
    GT.OwnerWrittenOnce(cfg.grants, sites, grantSteps, k, j, t.nodeId);
    GT.Reachable(cfg.grants, sites, grantSteps, j);
    user := ws[j].grants.nodes[source].userId.value;
    from, to := ApproversOf(cfg, sites[j], source, t.nodeId, user);
  }

  lemma ApproversOf(cfg: Config, s: G.Site, source: string, target: string, user: string)
    returns (from: string, to: string)
    requires G.Inv(cfg.grants, s) && source in s.g.nodes && target in s.g.nodes
    requires s.g.nodes[source].userId == s.g.nodes[target].userId == Some(user)
    ensures G.Bound(s.g, from, source) && s.g.sessions[from].userId == Some(user)
    ensures G.Bound(s.g, to, target) && s.g.sessions[to].userId == Some(user)
  {
    assert G.Linked(s.g, source, user) && G.Linked(s.g, target, user);
    from :| G.Bound(s.g, from, source) && s.g.sessions[from].userId == Some(user);
    to :| G.Bound(s.g, to, target) && s.g.sessions[to].userId == Some(user);
  }

  /** What a lookup that finds a target has found: a node of the owner of the snapshot's node that takes
      introductions, and none of that owner's that do is newer. */
  lemma TargetIs(nodes: map<string, Node>, source: string, target: Option<DeliveryTarget>)
    requires IsDeliveryTarget(nodes, source, target) && target.Some?
    ensures source in nodes && nodes[source].userId.Some? && nodes[source].userId != Some("")
    ensures target.value.nodeId in nodes
    ensures var n := nodes[target.value.nodeId];
            && n.userId == nodes[source].userId && n.active && n.revokedAt.None? && n.nodeType == "LivingCV"
            && n.endpoint != "" && n.endpoint == target.value.endpoint
            && n.introSecret == Some(target.value.secret) && target.value.secret != ""
            && forall o :: o in nodes && nodes[o].userId == n.userId && nodes[o].active && nodes[o].revokedAt.None?
                           && nodes[o].nodeType == "LivingCV" && nodes[o].endpoint != ""
                           && nodes[o].introSecret.Some? && nodes[o].introSecret != Some("") ==>
                             nodes[o].createdAt <= n.createdAt
  {
  }

  /** A node that a poll has provisioned takes its owner's introductions: while it is active and no other request is
      on its way to provision it, every lookup for a snapshot of a node of that user finds a target, and if the user has
      no other node as new, this one, with the secret the poll handed out. */
  lemma GrantedNodeIsTarget(cfg: Config, ws: seq<World>, steps: seq<Step>, i: nat, k: nat, h: string, n: string,
                            secret: string, source: string, target: Option<DeliveryTarget>)
    requires Q.Ready(cfg.outbox) && IsTrace(cfg, ws, steps) && Initial(ws[0]) && i < k < |ws|
    requires HandsOut(cfg, ws, steps, i, h, n, secret) && secret != ""
    requires source in ws[k].grants.nodes && h in ws[k].grants.sessions
    requires var nodes, user := ws[k].grants.nodes, ws[k].grants.sessions[h].userId;
             && nodes[source].userId == user && user != Some("")
             && n in nodes && nodes[n].active && nodes[n].revokedAt.None? && nodes[n].nodeType == "LivingCV"
             && nodes[n].endpoint != ""
    requires IsDeliveryTarget(ws[k].grants.nodes, source, target)
    ensures target.Some?
    ensures var nodes := ws[k].grants.nodes;
            (forall o :: o in nodes && o != n && nodes[o].userId == nodes[source].userId ==>
                           nodes[o].createdAt < nodes[n].createdAt) ==>
              target == Some(DeliveryTarget(n, nodes[n].endpoint, secret))
  {
    var sites, grantSteps, _, _, _, _ := Projections(cfg, ws, steps);
    assert grantSteps[i] == steps[i].step && sites[i] == SiteOf(ws[i]) && sites[i + 1] == SiteOf(ws[i + 1]);
    assert sites[k] == SiteOf(ws[k]);
    GT.InitialIsOk(cfg.grants, sites[0]);
    GO.HandedOutSecretStays(cfg.grants, sites, grantSteps, i, k, h, n, secret);
    OwnerOfGranted(cfg, sites, grantSteps, i, k, h, n, steps[i].step.job);
    assert Deliverable(ws[k].grants.nodes[n], ws[k].grants.sessions[h].userId.value);
  }

  lemma OwnerOfGranted(cfg: Config, sites: seq<G.Site>, steps: seq<G.Step>, i: nat, k: nat, h: string, n: string,
                       job: nat)
    requires G.IsTrace(cfg.grants, sites, steps) && G.Initial(sites[0]) && i < k < |sites|
    requires job < |sites[i + 1].jobs| && GP.GrantedTo(cfg.grants, sites[i + 1].jobs[job], h)
    requires sites[i + 1].jobs[job].at.answer.nodeId == Some(n) && n in sites[k].g.nodes && h in sites[k].g.sessions
    ensures sites[k].g.nodes[n].userId.Some? && sites[k].g.nodes[n].userId == sites[k].g.sessions[h].userId
  {
    GK.GrantedNodeIsOwned(cfg.grants, sites, steps, i + 1, job);
    GA.AnswersAreTrue(cfg.grants, sites, steps, i + 1, job);
    GT.InitialIsOk(cfg.grants, sites[0]);
    GT.OwnerWrittenOnce(cfg.grants, sites, steps, i + 1, k, n);
    GT.SessionEvolves(cfg.grants, sites, steps, i + 1, k, h);
  }
}
